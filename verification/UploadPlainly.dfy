/** The outcome of an upload run in plain terms: sizes, times and rows, written out where they are used, and the run
    of a single new file. */
module UploadPlainly {
  import opened LostObject
  import opened Retry
  import opened Storage
  import opened UploadInvariant
  import opened UploadResults
  import opened UploadRun
  import opened UploadSteps
  import opened UploadVerdict
  import opened Words
  import opened Wrappers
  import Pool

  /** The name under which a file is kept. */
  function Name(c: Config, i: nat): string
    requires i < |c.files|
  {
    if c.folder == "" then c.files[i].path else c.folder + "/" + c.files[i].path
  }

  lemma NameIsKey(c: Config, i: nat)
    requires i < |c.files|
    ensures Name(c, i) == Key(c, i)
  {
  }

  /** Files that cannot be inspected or have 5315022020 bytes or more never get a worker, and neither do files whose
      time the table has; what table and store say of a file without a worker does not change. This is so at any
      moment of any run, dry or not. */
  lemma LeftAlone(c: Config, t0: Table, r0: Remote, events: seq<Event>, i: nat)
    requires ValidConfig(c) && Run(c, Init(c, t0, r0), events).Some? && i < |c.files|
    ensures var s, f, name := Run(c, Init(c, t0, r0), events).value, c.files[i], Name(c, i);
            && (f.stat.Unreadable? || f.stat.size >= 5315022020 ==> i !in s.workers)
            && (f.stat.Stat? && 0 < f.stat.mtime && name in t0 && t0[name].mtime == f.stat.mtime ==> i !in s.workers)
            && (i !in s.workers ==>
                  && (name in s.table <==> name in t0) && (name in t0 ==> s.table[name] == t0[name])
                  && (name in s.remote <==> name in r0) && (name in r0 ==> s.remote[name] == r0[name]))
  {
    var s := Run(c, Init(c, t0, r0), events).value;
    Reached(c, t0, r0, events);
    NameIsKey(c, i);
    if i in s.workers {
      assert WorkerOk(c, t0, r0, s, i, s.workers[i]);
    } else {
      NotOwnedByOthers(c, s, i);
      assert Untouched(t0, r0, s, Key(c, i));
    }
  }

  /** After a run that succeeds, every file that can be inspected, has less than 5315022020 bytes and whose time the
      table did not have has had a worker. */
  lemma AllOthersDispatched(c: Config, t0: Table, r0: Remote, events: seq<Event>, i: nat)
    requires ValidConfig(c) && !c.dryRun && Run(c, Init(c, t0, r0), events).Some?
    requires Run(c, Init(c, t0, r0), events).value.pc == Decided(true)
    requires i < |c.files| && c.files[i].stat.Stat? && c.files[i].stat.size < 5315022020
    requires var name := Name(c, i);
             name in t0 ==> t0[name].mtime == 0 || t0[name].mtime != c.files[i].stat.mtime
    ensures i in Run(c, Init(c, t0, r0), events).value.workers
  {
    SuccessMeansInSync(c, t0, r0, events);
    NameIsKey(c, i);
  }

  /** And each of those files is in the table with its MD5 and the lowest 32 bits of its time. The store has its
      contents and its time, unless it is no link and the table knew these contents: then the contents in the store
      are what they were. */
  lemma DispatchedAreRecorded(c: Config, t0: Table, r0: Remote, events: seq<Event>, i: nat)
    requires ValidConfig(c) && !c.dryRun && Run(c, Init(c, t0, r0), events).Some?
    requires Run(c, Init(c, t0, r0), events).value.pc == Decided(true)
    requires i < |c.files| && c.files[i].stat.Stat? && c.files[i].stat.size < 5315022020
    requires var name := Name(c, i);
             name in t0 ==> t0[name].mtime == 0 || t0[name].mtime != c.files[i].stat.mtime
    ensures var s, f, name := Run(c, Init(c, t0, r0), events).value, c.files[i], Name(c, i);
            && name in s.table && s.table[name] == Row(f.md5, f.stat.mtime % 0x1_0000_0000)
            && if f.stat.symlink || name !in t0 || t0[name].mtime == 0 || t0[name].md5 != f.md5 then
                 name in s.remote && s.remote[name] == Object(f.md5, f.stat.mtime)
               else (name in s.remote <==> name in r0) && (name in r0 ==> s.remote[name].md5 == r0[name].md5)
  {
    var s := Run(c, Init(c, t0, r0), events).value;
    AllOthersDispatched(c, t0, r0, events, i);
    Reached(c, t0, r0, events);
    VerdictIsComplete(c, t0, r0, events);
    NameIsKey(c, i);
    WrittenOut(c, t0, r0, s, i, s.workers[i]);
  }

  lemma WrittenOut(c: Config, t0: Table, r0: Remote, s: State, i: nat, w: Worker)
    requires WorkerOk(c, t0, r0, s, i, w) && w.phase == Gone(true) && !c.dryRun && |c.files[i].md5| == 32
    ensures var f, name := c.files[i], Key(c, i);
            && name in s.table && s.table[name] == Row(f.md5, f.stat.mtime % 0x1_0000_0000)
            && if f.stat.symlink || name !in t0 || t0[name].mtime == 0 || t0[name].md5 != f.md5 then
                 name in s.remote && s.remote[name] == Object(f.md5, f.stat.mtime)
               else (name in s.remote <==> name in r0) && (name in r0 ==> s.remote[name].md5 == r0[name].md5)
  {
  }

  /** The file that the dispatcher has at hand, if any. */
  function AtHand(pc: Pc): set<nat> {
    if pc.Lookup? || pc.Dispatch? then {pc.i} else {}
  }

  lemma StepAfterFailure(c: Config, s: State, e: Event)
    requires s.failed && Step(c, s, e).Some?
    ensures var s' := Step(c, s, e).value;
            s'.failed && s'.workers.Keys + AtHand(s'.pc) <= s.workers.Keys + AtHand(s.pc)
  {
  }

  /** Once something has failed no further file is taken up: at most the one at hand still gets a worker. */
  lemma {:induction false} NothingAfterFailure(c: Config, s: State, events: seq<Event>)
    requires s.failed && Run(c, s, events).Some?
    ensures var s' := Run(c, s, events).value;
            s'.failed && s'.workers.Keys + AtHand(s'.pc) <= s.workers.Keys + AtHand(s.pc)
    decreases |events|
  {
    if events != [] {
      StepAfterFailure(c, s, events[0]);
      NothingAfterFailure(c, Step(c, s, events[0]).value, events[1..]);
    }
  }

  // One new file

  function NewFile(md5: string): Config {
    Config([File("a", Stat(5, 7, false), md5)], "", false, 1)
  }

  function Put(md5: string): seq<Event> {
    [Begin(0), Tried(0, Sent(CurlOk, 200, Some("\"" + md5 + "\""), ""), true), Stored(0, true), Leave(0)]
  }

  lemma NewDispatched(md5: string)
    ensures Run(NewFile(md5), Init(NewFile(md5), map[], map[]), DISPATCH)
            == Some(State(Head(1), Pool.Pool([true], map[0 := 0], Pool.Idle), false, map[], map[],
                          map[0 := Worker(Row("", 0), Started, false)], {}, {}))
  {
    var c := NewFile(md5);
    var s := Init(c, map[], map[]);
    var s1 := Step(c, s, NextFile).value;
    var s2 := Step(c, s1, LookedUp(true)).value;
    assert Key(c, 0) == "a" && s2.pc == Dispatch(0, Row("", 0));
    var s3 := Step(c, s2, Scan).value;
    var s4 := Step(c, s3, Mark).value;
    var s5 := Step(c, s4, Spawn(true)).value;
    assert s4.pool.busy == [true];
    Five(c, s, DISPATCH, s1, s2, s3, s4, s5);
  }

  lemma NewSent(md5: string, s: State)
    requires |md5| == 32 && s.pc == Head(1) && s.remote == map[]
    requires s.workers == map[0 := Worker(Row("", 0), Started, false)]
    ensures var c, a := NewFile(md5), Sent(CurlOk, 200, Some("\"" + md5 + "\""), "");
            var s1 := s.(workers := map[0 := Worker(Row("", 0), Putting(START), false)]);
            && Step(c, s, Begin(0)) == Some(s1)
            && Step(c, s1, Tried(0, a, true))
               == Some(s.(workers := map[0 := Worker(Row("", 0), Storing(md5), false)],
                          remote := map["a" := Object(md5, 7)]))
  {
    var c, a := NewFile(md5), Sent(CurlOk, 200, Some("\"" + md5 + "\""), "");
    assert ExtractMd5(a.etag) == md5 && Turn(START, a) == Returned(true, 200, md5);
    var s1 := Step(c, s, Begin(0)).value;
    assert s1.workers == map[0 := Worker(Row("", 0), Putting(START), false)];
    var s2 := Step(c, s1, Tried(0, a, true)).value;
    assert Key(c, 0) == "a" && s2.remote == map["a" := Object(md5, 7)];
    assert s2.workers == map[0 := Worker(Row("", 0), Storing(md5), false)];
  }

  lemma NewPut(md5: string, s: State)
    requires |md5| == 32
    requires s == State(Head(1), Pool.Pool([true], map[0 := 0], Pool.Idle), false, map[], map[],
                        map[0 := Worker(Row("", 0), Started, false)], {}, {})
    ensures Run(NewFile(md5), s, Put(md5))
            == Some(State(Head(1), Pool.Pool([false], map[], Pool.Idle), false, map["a" := Row(md5, 7)],
                          map["a" := Object(md5, 7)], map[0 := Worker(Row("", 0), Gone(true), false)], {}, {}))
  {
    var c := NewFile(md5);
    NewSent(md5, s);
    var s1 := s.(workers := map[0 := Worker(Row("", 0), Putting(START), false)]);
    var s2 := s.(workers := map[0 := Worker(Row("", 0), Storing(md5), false)], remote := map["a" := Object(md5, 7)]);
    var s3 := Step(c, s2, Stored(0, true)).value;
    assert Key(c, 0) == "a" && s3.table == map["a" := Row(md5, 7)];
    var s4 := Step(c, s3, Leave(0)).value;
    assert s4.pool.busy == [false] && s4.pool.holder == map[];
    assert s4.workers == map[0 := Worker(Row("", 0), Gone(true), false)];
    Four(c, s, Put(md5), s1, s2, s3, s4);
  }

  /** Five bytes that neither table nor store knows: in thirteen steps the object is stored and the row is written. */
  lemma NewFileIsStored(md5: string)
    requires |md5| == 32
    ensures ValidConfig(NewFile(md5))
    ensures var s := Run(NewFile(md5), Init(NewFile(md5), map[], map[]), DISPATCH + Put(md5) + WAIT);
            && s.Some? && s.value.pc == Decided(true)
            && s.value.table == map["a" := Row(md5, 7)] && s.value.remote == map["a" := Object(md5, 7)]
  {
    var c := NewFile(md5);
    var s := Init(c, map[], map[]);
    NewDispatched(md5);
    RunConcat(c, s, DISPATCH, Put(md5));
    NewPut(md5, Run(c, s, DISPATCH).value);
    RunConcat(c, s, DISPATCH + Put(md5), WAIT);
    Waited(c, Run(c, s, DISPATCH + Put(md5)).value);
  }
}
