/** What every step of an upload run keeps. The table and the store are compared with what they were at the start
    of the run, t0 and r0. */
module UploadInvariant {
  import opened Wrappers
  import opened Retry
  import opened Storage
  import opened UploadRun
  import opened Words
  import Pool

  function At<V>(m: map<string, V>, key: string): Option<V> {
    if key in m then Some(m[key]) else None
  }

  function Md5At(remote: Remote, key: string): Option<string> {
    if key in remote then Some(remote[key].md5) else None
  }

  /** A file is not looked at by the database's word alone: its recorded time is zero or differs. */
  ghost predicate NeedsWork(c: Config, i: nat, row: Row)
    requires i < |c.files|
  {
    !(row.mtime > 0 && row.mtime == MtimeOf(c, i))
  }

  ghost predicate Untouched(t0: Table, r0: Remote, s: State, key: string) {
    At(s.table, key) == At(t0, key) && At(s.remote, key) == At(r0, key)
  }

  /** The table says of a file what is true of it locally. */
  ghost predicate Recorded(c: Config, s: State, i: nat)
    requires i < |c.files|
  {
    At(s.table, Key(c, i)) == Some(Row(c.files[i].md5, MtimeOf(c, i) % TWO32))
  }

  ghost predicate InSync(c: Config, s: State, i: nat)
    requires i < |c.files|
  {
    Recorded(c, s, i) && Md5At(s.remote, Key(c, i)) == Some(c.files[i].md5)
  }

  /** Table and store do not contradict each other about a key. */
  ghost predicate Agree(table: Table, remote: Remote, key: string) {
    key in table ==> Md5At(remote, key) == Some(table[key].md5)
  }

  /** Table and store say the same about a key, also when one of them says nothing. */
  ghost predicate Match(table: Table, remote: Remote, key: string) {
    (if key in table then Some(table[key].md5) else None) == Md5At(remote, key)
  }

  /** The object as a run finds it, with its time updated or not. */
  function Refreshed(c: Config, r0: Remote, i: nat, refreshed: bool): Option<Object>
    requires i < |c.files|
  {
    var key := Key(c, i);
    if key !in r0 then None
    else Some(if refreshed then r0[key].(mtime := MtimeOf(c, i)) else r0[key])
  }

  /** The object as an upload leaves it. */
  function Uploaded(c: Config, i: nat): Option<Object>
    requires i < |c.files|
  {
    Some(Object(c.files[i].md5, MtimeOf(c, i)))
  }

  /** What is known of a worker from the place where it is. */
  ghost predicate WorkerOk(c: Config, t0: Table, r0: Remote, s: State, id: nat, w: Worker) {
    && id < |c.files| && Eligible(c.files[id])
    && w.stored == RowAt(t0, Key(c, id)) && NeedsWork(c, id, w.stored)
    && match w.phase
       case Started => Untouched(t0, r0, s, Key(c, id))
       case Updating => !c.dryRun && Untouched(t0, r0, s, Key(c, id)) && MetaOnly(c.files[id], w.stored)
       case StoringMeta =>
         && !c.dryRun && MetaOnly(c.files[id], w.stored)
         && At(s.table, Key(c, id)) == At(t0, Key(c, id))
         && At(s.remote, Key(c, id)) == Refreshed(c, r0, id, w.refreshed)
       case Putting(loop) => !c.dryRun && !MetaOnly(c.files[id], w.stored)
       case Storing(md5) =>
         && !c.dryRun && !MetaOnly(c.files[id], w.stored)
         && md5 == c.files[id].md5 && At(s.remote, Key(c, id)) == Uploaded(c, id)
       case Failing => !c.dryRun
       case Leaving(ok) => Outcome(c, t0, r0, s, id, w, ok)
       case Gone(ok) => Outcome(c, t0, r0, s, id, w, ok)
  }

  /** After success the file is recorded. The store has what was uploaded, or what it had before if nothing but
      metadata was sent, with a new time if that took effect. */
  ghost predicate Outcome(c: Config, t0: Table, r0: Remote, s: State, id: nat, w: Worker, ok: bool)
    requires id < |c.files| && c.files[id].stat.Stat?
  {
    if c.dryRun then ok && Untouched(t0, r0, s, Key(c, id))
    else ok ==> Recorded(c, s, id)
                && At(s.remote, Key(c, id))
                   == if MetaOnly(c.files[id], w.stored) then Refreshed(c, r0, id, w.refreshed) else Uploaded(c, id)
  }

  ghost predicate Owned(c: Config, s: State, key: string) {
    exists id :: id in s.workers && id < |c.files| && Key(c, id) == key
  }

  /** The store and the table: every worker is where it should be, other keys are as they were. */
  ghost predicate Data(c: Config, t0: Table, r0: Remote, s: State) {
    && (forall id :: id in s.workers ==> WorkerOk(c, t0, r0, s, id, s.workers[id]))
    && (forall key :: !Owned(c, s, key) ==> Untouched(t0, r0, s, key))
    && (c.dryRun ==> s.table == t0 && s.remote == r0)
  }

  /** Slots: those that are held are held by the workers that have not called markFree. */
  ghost predicate Slots(c: Config, s: State) {
    && Pool.Inv(s.pool) && |s.pool.busy| == c.threads
    && (forall id :: id in s.pool.holder <==> id in s.workers && !s.workers[id].phase.Gone?)
    && match s.pc
       case Head(_) => s.pool.cursor == Pool.Idle
       case Lookup(_) => s.pool.cursor == Pool.Idle
       case Dispatch(_, _) => s.pool.cursor.Seek? || s.pool.cursor.Found? || s.pool.cursor.Marked?
       case Draining => s.pool.cursor.Barrier? || s.pool.cursor == Pool.Passed
       case Decided(_) => s.pool.cursor == Pool.Passed
       case Aborted => true
  }

  ghost predicate HasFailed(phase: Phase) {
    (phase.Leaving? || phase.Gone?) && !phase.ok
  }

  /** The failed flag is up exactly when a lookup or a worker has failed. */
  ghost predicate Flag(s: State) {
    && (s.failed <==> s.lookupFailed != {} || exists id :: id in s.workers && HasFailed(s.workers[id].phase))
    && (s.pc.Decided? ==> s.pc.success == !s.failed)
  }

  function Position(c: Config, s: State): nat {
    match s.pc
    case Head(i) => i
    case Lookup(i) => i
    case Dispatch(i, _) => i
    case _ => |c.files|
  }

  ghost predicate UpToDate(c: Config, t0: Table, i: nat) {
    i < |c.files| && Eligible(c.files[i]) && !NeedsWork(c, i, RowAt(t0, Key(c, i)))
  }

  ghost predicate Handled(c: Config, s: State, i: nat) {
    i < |c.files| ==> !Eligible(c.files[i]) || i in s.lookupFailed || i in s.upToDate || i in s.workers
  }

  /** How far the dispatcher has come, and that it has forgotten no file on the way. */
  ghost predicate Progress(c: Config, t0: Table, s: State) {
    && Position(c, s) <= |c.files|
    && (forall id :: id in s.workers ==> id < Position(c, s))
    && (forall i :: i in s.upToDate ==> i < Position(c, s) && i !in s.workers && UpToDate(c, t0, i))
    && (s.pc.Head? || s.pc.Lookup? || s.pc.Dispatch? || !s.failed ==>
          s.pc == Aborted || forall i: nat :: i < Position(c, s) ==> Handled(c, s, i))
    && (s.pc.Lookup? || s.pc.Dispatch? ==> s.pc.i < |c.files| && Eligible(c.files[s.pc.i]))
    && (s.pc.Dispatch? ==> s.pc.row == RowAt(t0, Key(c, s.pc.i)) && NeedsWork(c, s.pc.i, s.pc.row))
  }

  ghost predicate Inv(c: Config, t0: Table, r0: Remote, s: State) {
    Slots(c, s) && Data(c, t0, r0, s) && Flag(s) && Progress(c, t0, s)
  }

  lemma InitInv(c: Config, t0: Table, r0: Remote)
    ensures Inv(c, t0, r0, Init(c, t0, r0))
  {
  }

  /** Distinct paths give distinct keys. */
  lemma KeysDistinct(c: Config, i: nat, j: nat)
    requires ValidConfig(c) && i < |c.files| && j < |c.files| && i != j
    ensures Key(c, i) != Key(c, j)
  {
    var p, q := c.files[i].path, c.files[j].path;
    assert p != q;
    if |c.folder| > 0 {
      assert (c.folder + "/" + p)[|c.folder| + 1..] == p;
      assert (c.folder + "/" + q)[|c.folder| + 1..] == q;
    }
  }

  /** The file the dispatcher is at belongs to nobody yet. */
  lemma NotOwned(c: Config, s: State, i: nat)
    requires ValidConfig(c) && i < |c.files|
    requires forall id :: id in s.workers ==> id < i
    ensures !Owned(c, s, Key(c, i))
  {
    forall id | id in s.workers && id < |c.files| ensures Key(c, id) != Key(c, i) {
      KeysDistinct(c, id, i);
    }
  }

  /** A worker has moved, and has written to its own key only. */
  ghost predicate Moved(c: Config, s: State, s': State, id: nat)
    requires id in s.workers && id < |c.files|
  {
    && s'.pc == s.pc && s'.lookupFailed == s.lookupFailed && s'.upToDate == s.upToDate
    && s'.workers.Keys == s.workers.Keys
    && (forall other :: other in s.workers && other != id ==> s'.workers[other] == s.workers[other])
    && (forall key :: key != Key(c, id) ==> Untouched(s.table, s.remote, s', key))
  }

  lemma SameOwners(c: Config, s: State, s': State, key: string)
    requires s'.workers.Keys == s.workers.Keys
    ensures Owned(c, s, key) <==> Owned(c, s', key)
  {
  }

  lemma MovedData(c: Config, t0: Table, r0: Remote, s: State, s': State, id: nat)
    requires ValidConfig(c) && Data(c, t0, r0, s) && id in s.workers && Moved(c, s, s', id)
    requires WorkerOk(c, t0, r0, s', id, s'.workers[id])
    requires c.dryRun ==> s'.table == s.table && s'.remote == s.remote
    ensures Data(c, t0, r0, s')
  {
    forall other | other in s'.workers ensures WorkerOk(c, t0, r0, s', other, s'.workers[other]) {
      if other != id {
        assert WorkerOk(c, t0, r0, s, other, s.workers[other]);
        KeysDistinct(c, other, id);
        assert Untouched(s.table, s.remote, s', Key(c, other));
      }
    }
    forall key | !Owned(c, s', key) ensures Untouched(t0, r0, s', key) {
      assert key != Key(c, id) && !Owned(c, s, key) by {
        SameOwners(c, s, s', key);
        assert id in s'.workers;
      }
      assert Untouched(s.table, s.remote, s', key) && Untouched(t0, r0, s, key);
    }
  }

  /** The flag follows a worker's move. */
  lemma MovedFlag(c: Config, s: State, s': State, id: nat)
    requires Flag(s) && id in s.workers && id < |c.files| && Moved(c, s, s', id)
    requires HasFailed(s.workers[id].phase) ==> HasFailed(s'.workers[id].phase)
    requires s'.failed == (s.failed || HasFailed(s'.workers[id].phase))
    requires !s.pc.Decided? || s'.failed == s.failed
    ensures Flag(s')
  {
  }

  lemma MovedProgress(c: Config, t0: Table, s: State, s': State, id: nat)
    requires Progress(c, t0, s) && id in s.workers && id < |c.files| && Moved(c, s, s', id)
    requires s.failed ==> s'.failed
    ensures Progress(c, t0, s')
  {
    assert Position(c, s') == Position(c, s);
    forall i: nat | Handled(c, s, i) ensures Handled(c, s', i) {
    }
  }

  /** A worker's move that keeps its slot keeps the slots. */
  lemma MovedSlots(c: Config, s: State, s': State, id: nat)
    requires Slots(c, s) && id in s.workers && id < |c.files| && Moved(c, s, s', id)
    requires s'.pool == s.pool && !s.workers[id].phase.Gone? && !s'.workers[id].phase.Gone?
    ensures Slots(c, s')
  {
  }

  /** While a worker is at work the barrier is not passed. */
  lemma StillAtWork(c: Config, s: State, id: nat)
    requires Slots(c, s) && id in s.workers && !s.workers[id].phase.Gone?
    ensures s.pool.cursor != Pool.Passed && !s.pc.Decided?
  {
  }
}
