/** One file, recorded in the table with its contents and another time, whose object the store has lost: an upload
    run that succeeds and leaves it lost. */
module LostObject {
  import opened Storage
  import opened UploadInvariant
  import opened UploadRun
  import opened UploadVerdict
  import opened Wrappers
  import Pool

  function OneFile(md5: string): Config {
    Config([File("a", Stat(0, 2, false), md5)], "", false, 1)
  }

  const DISPATCH: seq<Event> := [NextFile, LookedUp(true), Scan, Mark, Spawn(true)]
  const WORK: seq<Event> := [Begin(0), MetaUpdated(0, true, false), MetaStored(0, true), Leave(0)]
  const WAIT: seq<Event> := [NextFile, Scan, Scan, Decide]

  function Start(md5: string): State {
    Init(OneFile(md5), map["a" := Row(md5, 1)], map[])
  }

  lemma Dispatched(md5: string)
    ensures Run(OneFile(md5), Start(md5), DISPATCH)
            == Some(State(Head(1), Pool.Pool([true], map[0 := 0], Pool.Idle), false, map["a" := Row(md5, 1)], map[],
                          map[0 := Worker(Row(md5, 1), Started, false)], {}, {}))
  {
    var c, s := OneFile(md5), Start(md5);
    var s1 := Step(c, s, NextFile).value;
    var s2 := Step(c, s1, LookedUp(true)).value;
    assert Key(c, 0) == "a" && s2.pc == Dispatch(0, Row(md5, 1));
    var s3 := Step(c, s2, Scan).value;
    var s4 := Step(c, s3, Mark).value;
    var s5 := Step(c, s4, Spawn(true)).value;
    assert s4.pool.busy == [true];
    Five(c, s, DISPATCH, s1, s2, s3, s4, s5);
  }

  lemma Worked(md5: string, s: State)
    requires s == State(Head(1), Pool.Pool([true], map[0 := 0], Pool.Idle), false, map["a" := Row(md5, 1)], map[],
                        map[0 := Worker(Row(md5, 1), Started, false)], {}, {})
    ensures Run(OneFile(md5), s, WORK)
            == Some(State(Head(1), Pool.Pool([false], map[], Pool.Idle), false, map["a" := Row(md5, 2)], map[],
                          map[0 := Worker(Row(md5, 1), Gone(true), false)], {}, {}))
  {
    var c := OneFile(md5);
    var s1 := Step(c, s, Begin(0)).value;
    var s2 := Step(c, s1, MetaUpdated(0, true, false)).value;
    var s3 := Step(c, s2, MetaStored(0, true)).value;
    assert Key(c, 0) == "a" && s3.table == map["a" := Row(md5, 2)];
    var s4 := Step(c, s3, Leave(0)).value;
    assert s4.pool.busy == [false] && s4.pool.holder == map[];
    assert s4.workers == map[0 := Worker(Row(md5, 1), Gone(true), false)];
    Four(c, s, WORK, s1, s2, s3, s4);
  }

  lemma Waited(c: Config, s: State)
    requires |c.files| == 1 && s.pc == Head(1) && s.pool == Pool.Pool([false], map[], Pool.Idle) && !s.failed
    ensures Run(c, s, WAIT) == Some(s.(pc := Decided(true), pool := s.pool.(cursor := Pool.Passed)))
  {
    var s1 := Step(c, s, NextFile).value;
    var s2 := Step(c, s1, Scan).value;
    var s3 := Step(c, s2, Scan).value;
    var s4 := Step(c, s3, Decide).value;
    Four(c, s, WAIT, s1, s2, s3, s4);
  }

  lemma Four(c: Config, s: State, e: seq<Event>, s1: State, s2: State, s3: State, s4: State)
    requires |e| == 4 && Step(c, s, e[0]) == Some(s1) && Step(c, s1, e[1]) == Some(s2)
    requires Step(c, s2, e[2]) == Some(s3) && Step(c, s3, e[3]) == Some(s4)
    ensures Run(c, s, e) == Some(s4)
  {
    RunOne(c, s3, e[3], []);
    RunOne(c, s2, e[2], [e[3]]);
    RunOne(c, s1, e[1], [e[2], e[3]]);
    RunOne(c, s, e[0], [e[1], e[2], e[3]]);
    assert [e[3]] + [] == [e[3]] && [e[2]] + [e[3]] == [e[2], e[3]];
    assert [e[1]] + [e[2], e[3]] == [e[1], e[2], e[3]] && e == [e[0]] + [e[1], e[2], e[3]];
  }

  lemma Five(c: Config, s: State, e: seq<Event>, s1: State, s2: State, s3: State, s4: State, s5: State)
    requires |e| == 5 && Step(c, s, e[0]) == Some(s1) && Step(c, s1, e[1]) == Some(s2)
    requires Step(c, s2, e[2]) == Some(s3) && Step(c, s3, e[3]) == Some(s4) && Step(c, s4, e[4]) == Some(s5)
    ensures Run(c, s, e) == Some(s5)
  {
    Four(c, s1, e[1..], s2, s3, s4, s5);
    assert e == [e[0]] + e[1..];
    RunOne(c, s, e[0], e[1..]);
  }

  /** The run succeeds and records the file, and the store has no object for it. */
  lemma SuccessWithoutObject(md5: string)
    requires |md5| == 32
    ensures ValidConfig(OneFile(md5))
    ensures var s := Run(OneFile(md5), Start(md5), DISPATCH + WORK + WAIT);
            && s.Some? && s.value.pc == Decided(true) && s.value.remote == map[]
            && Recorded(OneFile(md5), s.value, 0) && !InSync(OneFile(md5), s.value, 0)
  {
    var c, s := OneFile(md5), Start(md5);
    Dispatched(md5);
    RunConcat(c, s, DISPATCH, WORK);
    Worked(md5, Run(c, s, DISPATCH).value);
    RunConcat(c, s, DISPATCH + WORK, WAIT);
    Waited(c, Run(c, s, DISPATCH + WORK).value);
    assert Key(c, 0) == "a";
  }
}
