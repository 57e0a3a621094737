/** The sequence of src/main.cc: upload, and if that succeeded, deletion of what is no longer there locally. */
module Synchronise {
  import opened Deleter
  import opened Rebuild
  import opened Storage
  import opened UploadInvariant
  import opened UploadResults
  import opened UploadRun
  import opened Words
  import opened Wrappers
  import opened Xml
  import opened XmlText

  /** The local paths as the list of files has them, with a slash in front. */
  function LocalPaths(c: Config): seq<string> {
    seq(|c.files|, i requires 0 <= i < |c.files| => "/" + c.files[i].path)
  }

  /** A key on the list of a deletion, given the table and the local paths. What the requests name may differ. */
  ghost predicate OnList(table: Table, paths: seq<string>, databaseFilename: string, key: string) {
    key in table && !IsLocal(paths, key) && !IsDatabase(key, databaseFilename)
  }

  lemma OnListExactly(table: Table, paths: seq<string>, databaseFilename: string, list: seq<string>, key: string)
    requires ToDelete(table, paths, list)
    ensures key in Deletable(list, databaseFilename) <==> OnList(table, paths, databaseFilename, key)
  {
    DeletableMeans(list, databaseFilename, key);
  }

  function Longest(paths: seq<string>): (k: nat)
    requires paths != []
    ensures k < |paths| && forall i :: 0 <= i < |paths| ==> |paths[i]| <= |paths[k]|
    decreases |paths|
  {
    if |paths| == 1 then 0
    else
      var k := Longest(paths[..|paths| - 1]);
      assert forall i :: 0 <= i < |paths| - 1 ==> paths[i] == paths[..|paths| - 1][i];
      if |paths[|paths| - 1]| > |paths[k]| then |paths| - 1 else k
  }

  /** No table puts the key of a local file on the list exactly if each of these keys is itself a bare local path or
      the database's. */
  lemma ListSparesExactly(paths: seq<string>, folder: string, databaseFilename: string)
    requires forall i :: 0 <= i < |paths| ==> |paths[i]| > 0
    ensures (forall table: Table, i :: 0 <= i < |paths| ==>
               !OnList(table, paths, databaseFilename, RemoteKey(folder, paths[i][1..])))
            <==> forall i :: 0 <= i < |paths| ==>
                   var key := RemoteKey(folder, paths[i][1..]); IsLocal(paths, key) || IsDatabase(key, databaseFilename)
  {
    forall i | 0 <= i < |paths|
      ensures var key := RemoteKey(folder, paths[i][1..]);
              var table: Table := map[key := Row("", 1)];
              OnList(table, paths, databaseFilename, key)
              <==> !IsLocal(paths, key) && !IsDatabase(key, databaseFilename)
    {
    }
  }

  /** Uploads are stored under folder/path, but the comparison before a deletion is made with the bare paths. The
      keys of all local files are sure to stay off the list exactly when there is no folder, or no local file. */
  lemma ListSparesLocalFiles(paths: seq<string>, folder: string, databaseFilename: string)
    requires forall i :: 0 <= i < |paths| ==> |paths[i]| > 0
    requires '/' !in databaseFilename
    ensures (forall table: Table, i :: 0 <= i < |paths| ==>
               !OnList(table, paths, databaseFilename, RemoteKey(folder, paths[i][1..])))
            <==> folder == "" || paths == []
  {
    if folder == "" {
      forall table: Table, i | 0 <= i < |paths|
        ensures !OnList(table, paths, databaseFilename, RemoteKey(folder, paths[i][1..]))
      {
        assert IsLocal(paths, paths[i][1..]);
      }
    } else if paths != [] {
      var k := Longest(paths);
      var key := RemoteKey(folder, paths[k][1..]);
      var table: Table := map[key := Row("", 1)];
      assert key[|folder|] == '/';
      assert forall j :: 0 <= j < |databaseFilename + "-journal"| ==> (databaseFilename + "-journal")[j] != '/';
      assert OnList(table, paths, databaseFilename, key);
    }
  }

  /** A deletion is sure to name no local file: whatever the table holds, and however far the deletion comes. */
  ghost predicate SureToSpare(paths: seq<string>, folder: string, databaseFilename: string)
    requires forall i :: 0 <= i < |paths| ==> |paths[i]| > 0
  {
    forall table: Table, list, i :: 0 <= i < |paths| && ToDelete(table, paths, list) ==>
      !MayName(Deletable(list, databaseFilename), RemoteKey(folder, paths[i][1..]))
  }

  /** Every text that a reader of XML takes for the key of a local file is itself a bare local path or the
      database's. */
  ghost predicate NoStandIn(paths: seq<string>, folder: string, databaseFilename: string)
    requires forall i :: 0 <= i < |paths| ==> |paths[i]| > 0
  {
    forall i, key: string ::
      0 <= i < |paths| && AllLegal(key) && Normalised(key) == RemoteKey(folder, paths[i][1..]) ==>
        IsLocal(paths, key) || IsDatabase(key, databaseFilename)
  }

  /** The objects of all local files are sure to be spared if and only if no other key can stand in for one of
      theirs. */
  lemma SparesExactly(paths: seq<string>, folder: string, databaseFilename: string)
    requires forall i :: 0 <= i < |paths| ==> |paths[i]| > 0
    ensures SureToSpare(paths, folder, databaseFilename) <==> NoStandIn(paths, folder, databaseFilename)
  {
    if SureToSpare(paths, folder, databaseFilename) {
      forall i, key: string | 0 <= i < |paths| && AllLegal(key) && Normalised(key) == RemoteKey(folder, paths[i][1..])
        ensures IsLocal(paths, key) || IsDatabase(key, databaseFilename)
      {
        if !IsLocal(paths, key) && !IsDatabase(key, databaseFilename) {
          OneKey(paths, databaseFilename, key);
        }
      }
    }
    if NoStandIn(paths, folder, databaseFilename) {
      forall table: Table, list, i | 0 <= i < |paths| && ToDelete(table, paths, list)
        ensures !MayName(Deletable(list, databaseFilename), RemoteKey(folder, paths[i][1..]))
      {
        NotNamed(paths, folder, databaseFilename, table, list, i);
      }
    }
  }

  /** A table with one key that is no local path: the deletion names what the key is read as. */
  lemma OneKey(paths: seq<string>, databaseFilename: string, key: string)
    requires !IsLocal(paths, key) && !IsDatabase(key, databaseFilename) && AllLegal(key)
    ensures ToDelete(map[key := Row("", 1)], paths, [key])
    ensures MayName(Deletable([key], databaseFilename), Normalised(key))
  {
    var keys := Deletable([key], databaseFilename);
    assert [key][..|[key]| - 1] == [] && Deletable([], databaseFilename) == [];
    assert keys == [] + [key] == [key];
    assert BatchAt(keys, 0) == [key] && BatchAt(keys, 0)[0] == key;
    assert NamedByBatch(keys, 0, Normalised(key));
  }

  lemma NotNamed(paths: seq<string>, folder: string, databaseFilename: string, table: Table, list: seq<string>, i: nat)
    requires forall j :: 0 <= j < |paths| ==> |paths[j]| > 0
    requires NoStandIn(paths, folder, databaseFilename) && i < |paths| && ToDelete(table, paths, list)
    ensures !MayName(Deletable(list, databaseFilename), RemoteKey(folder, paths[i][1..]))
  {
    var keys, key := Deletable(list, databaseFilename), RemoteKey(folder, paths[i][1..]);
    forall j | 0 <= j < |keys|
      ensures !(AllLegal(keys[j]) && key == Normalised(keys[j]))
    {
      assert keys[j] in keys;
      OnListExactly(table, paths, databaseFilename, list, keys[j]);
    }
    if MayName(keys, key) {
      NamesNormalised(keys, key);
    }
  }

  /** Without a folder nothing stands in for a local file whose path has no line feed. */
  lemma SparesWithoutFolder(paths: seq<string>, databaseFilename: string)
    requires forall i :: 0 <= i < |paths| ==> |paths[i]| > 0 && '\n' !in paths[i]
    ensures SureToSpare(paths, "", databaseFilename)
  {
    forall i, key: string | 0 <= i < |paths| && AllLegal(key) && Normalised(key) == RemoteKey("", paths[i][1..])
      ensures IsLocal(paths, key)
    {
      assert forall j :: 1 <= j < |paths[i]| ==> paths[i][j] in paths[i];
      FeedShows(key);
      assert key == paths[i][1..];
    }
    SparesExactly(paths, "", databaseFilename);
  }

  /** With a folder the longest path always goes wrong, unless no reader would understand its key. */
  lemma FolderIsNeverSure(paths: seq<string>, folder: string, databaseFilename: string)
    requires forall i :: 0 <= i < |paths| ==> |paths[i]| > 0 && Plain(paths[i])
    requires paths != [] && folder != "" && Plain(folder) && '/' !in databaseFilename
    ensures !SureToSpare(paths, folder, databaseFilename)
  {
    var k := Longest(paths);
    var key := RemoteKey(folder, paths[k][1..]);
    assert key[|folder|] == '/';
    assert forall j :: 0 <= j < |databaseFilename + "-journal"| ==> (databaseFilename + "-journal")[j] != '/';
    assert Plain(key) by {
      assert forall j :: |folder| < j < |key| ==> key[j] == paths[k][j - |folder|];
    }
    PlainMeans(key);
    UnchangedExactly(key);
    OneKey(paths, databaseFilename, key);
  }

  /** After a successful upload, the key of a local file that was looked up is on the list exactly if it is neither a
      bare local path nor the database's: with a folder, what has just been uploaded. */
  lemma ListsUploaded(c: Config, t0: Table, r0: Remote, events: seq<Event>, databaseFilename: string,
                         list: seq<string>, i: nat)
    requires ValidConfig(c) && !c.dryRun && Run(c, Init(c, t0, r0), events).Some?
    requires Run(c, Init(c, t0, r0), events).value.pc == Decided(true)
    requires ToDelete(Run(c, Init(c, t0, r0), events).value.table, LocalPaths(c), list)
    requires i < |c.files| && Eligible(c.files[i])
    ensures Key(c, i) in Deletable(list, databaseFilename)
            <==> !IsLocal(LocalPaths(c), Key(c, i)) && !IsDatabase(Key(c, i), databaseFilename)
  {
    var s := Run(c, Init(c, t0, r0), events).value;
    SuccessMeansInSync(c, t0, r0, events);
    OnListExactly(s.table, LocalPaths(c), databaseFilename, list, Key(c, i));
    if NeedsWork(c, i, RowAt(t0, Key(c, i))) {
      assert Synced(c, t0, r0, s, i);
    } else {
      NotOwnedByOthers(c, s, i);
      assert Untouched(t0, r0, s, Key(c, i));
    }
  }

  /** Upload and deletion without a folder. The deletion may be complete or stopped at any batch, and the store may
      have dropped any of the objects that a request named, also when that was not acknowledged. No local file that
      was looked up loses its row, and it loses its object only if a batch names its key, which takes a key that does
      not come through XML unchanged. New contradictions between
      table and store come up only about objects dropped whose keys are still in the table: none after a complete
      deletion of keys that come through XML unchanged. After a complete deletion the table holds local paths, the
      database and its journal, and nothing else. */
  lemma UploadThenDelete(c: Config, t0: Table, r0: Remote, events: seq<Event>, databaseFilename: string,
                         list: seq<string>, sent: seq<Request>, files: Table, ok: bool, dropped: seq<string>)
    requires ValidConfig(c) && !c.dryRun && c.folder == "" && Run(c, Init(c, t0, r0), events).Some?
    requires Run(c, Init(c, t0, r0), events).value.pc == Decided(true)
    requires ToDelete(Run(c, Init(c, t0, r0), events).value.table, LocalPaths(c), list)
    requires DeletionOutcome(Run(c, Init(c, t0, r0), events).value.table, Deletable(list, databaseFilename),
                             sent, files, ok)
    requires forall key :: key in dropped ==> Named(sent, key)
    ensures var s := Run(c, Init(c, t0, r0), events).value;
            var keys := Deletable(list, databaseFilename);
            var s' := s.(table := files, remote := Without(s.remote, dropped));
            && (forall i: nat :: i < |c.files| && Eligible(c.files[i]) ==>
                  && Key(c, i) in files && files[Key(c, i)] == s.table[Key(c, i)]
                  && (AllPlain(keys) || !MayName(keys, Key(c, i)) ==> Kept(c, t0, r0, s', i)))
            && (forall key :: Agree(t0, r0, key) && (key !in dropped || key !in files) ==> Agree(files, s'.remote, key))
            && (ok && AllPlain(keys) ==> forall key :: key in dropped ==> key !in files)
            && (ok ==> forall key :: key in files <==>
                  key in s.table && (IsLocal(LocalPaths(c), key) || IsDatabase(key, databaseFilename)))
  {
    var s := Run(c, Init(c, t0, r0), events).value;
    var keys := Deletable(list, databaseFilename);
    var s' := s.(table := files, remote := Without(s.remote, dropped));
    SuccessMeansInSync(c, t0, r0, events);
    OnlyKeysGone(s.table, keys, sent, files, ok);
    forall i: nat | i < |c.files| && Eligible(c.files[i])
      ensures Key(c, i) in files && files[Key(c, i)] == s.table[Key(c, i)]
      ensures AllPlain(keys) || !MayName(keys, Key(c, i)) ==> Kept(c, t0, r0, s', i)
    {
      LocalKeyStays(c, s, databaseFilename, list, i);
      if AllPlain(keys) && MayName(keys, Key(c, i)) {
        NamesOnlyKeys(keys, Key(c, i));
      }
      FileKept(c, t0, r0, events, keys, sent, files, ok, dropped, i);
    }
    forall key | Agree(t0, r0, key) && (key !in dropped || key !in files)
      ensures Agree(files, s'.remote, key)
    {
      assert !Contradicted(t0, r0, s, key);
    }
    forall key | ok && AllPlain(keys) && key in dropped
      ensures key !in files
    {
      NamedExactly(s.table, keys, sent, files, ok, key);
      NamesOnlyKeys(keys, key);
    }
    forall key | ok
      ensures key in files <==> key in s.table && (IsLocal(LocalPaths(c), key) || IsDatabase(key, databaseFilename))
    {
      OnListExactly(s.table, LocalPaths(c), databaseFilename, list, key);
    }
  }

  /** The file is in table and store as a successful upload leaves it. */
  ghost predicate Kept(c: Config, t0: Table, r0: Remote, s: State, i: nat)
    requires i < |c.files| && Eligible(c.files[i])
  {
    if NeedsWork(c, i, RowAt(t0, Key(c, i))) then Synced(c, t0, r0, s, i)
    else Untouched(t0, r0, s, Key(c, i)) && Key(c, i) in s.table
  }

  lemma FileKept(c: Config, t0: Table, r0: Remote, events: seq<Event>, keys: seq<string>, sent: seq<Request>,
                 files: Table, ok: bool, dropped: seq<string>, i: nat)
    requires ValidConfig(c) && !c.dryRun && Run(c, Init(c, t0, r0), events).Some?
    requires Run(c, Init(c, t0, r0), events).value.pc == Decided(true)
    requires DeletionOutcome(Run(c, Init(c, t0, r0), events).value.table, keys, sent, files, ok)
    requires forall key :: key in dropped ==> Named(sent, key)
    requires i < |c.files| && Eligible(c.files[i]) && Key(c, i) !in keys
    ensures var s := Run(c, Init(c, t0, r0), events).value;
            && Key(c, i) in files && Key(c, i) in s.table && files[Key(c, i)] == s.table[Key(c, i)]
            && (!MayName(keys, Key(c, i)) ==>
                  Kept(c, t0, r0, s.(table := files, remote := Without(s.remote, dropped)), i))
  {
    var s := Run(c, Init(c, t0, r0), events).value;
    SuccessMeansInSync(c, t0, r0, events);
    OnlyKeysGone(s.table, keys, sent, files, ok);
    NamedExactly(s.table, keys, sent, files, ok, Key(c, i));
    if NeedsWork(c, i, RowAt(t0, Key(c, i))) {
      assert Synced(c, t0, r0, s, i);
    } else {
      NotOwnedByOthers(c, s, i);
      assert Untouched(t0, r0, s, Key(c, i));
    }
  }

  /** A key of the store can be lost in a deletion of the given list exactly if a batch names it. */
  lemma LosesExactly(table: Table, remote: Remote, keys: seq<string>, key: string)
    requires key in remote
    ensures MayName(keys, key)
            <==> exists sent, files, ok, dropped: seq<string> ::
                   && DeletionOutcome(table, keys, sent, files, ok)
                   && (forall k :: k in dropped ==> Named(sent, k))
                   && key !in Without(remote, dropped)
  {
    if MayName(keys, key) {
      NamedInTheEnd(table, keys, key);
      var dropped := [key];
      assert DeletionOutcome(table, keys, AllAccepted(keys), Without(table, keys), true)
          && (forall k :: k in dropped ==> Named(AllAccepted(keys), k)) && key !in Without(remote, dropped);
    }
    if sent, files, ok, dropped: seq<string> :|
      && DeletionOutcome(table, keys, sent, files, ok)
      && (forall k :: k in dropped ==> Named(sent, k)) && key !in Without(remote, dropped)
    {
      assert key in dropped;
      NamedExactly(table, keys, sent, files, ok, key);
    }
  }

  /** A deletion takes none but its keys out of the table, and all of them if it is complete. */
  lemma OnlyKeysGone(table: Table, keys: seq<string>, sent: seq<Request>, files: Table, ok: bool)
    requires DeletionOutcome(table, keys, sent, files, ok)
    ensures forall key :: key !in keys ==> At(files, key) == At(table, key)
    ensures forall key :: key in files ==> key in table && files[key] == table[key] && (ok ==> key !in keys)
  {
  }

  /** Without the condition on the keys a local file can be lost: of the two objects that differ in a line end the
      one without a local file is to be deleted, and the other one is named. */
  lemma LocalFileNamed(databaseFilename: string, row: Row)
    requires databaseFilename != "a\rb" && databaseFilename + "-journal" != "a\rb"
    ensures var table := map["a\nb" := row, "a\rb" := row];
            && ToDelete(table, ["/a\nb"], ["a\rb"])
            && IsLocal(["/a\nb"], "a\nb")
            && NamedIn(Body(DELETE, Deletable(["a\rb"], databaseFilename)), "a\nb")
  {
    var paths, keys := ["/a\nb"], ["a\rb"];
    assert paths[0][1..] == "a\nb";
    CarriageReturnIsLost();
    assert keys[..0] == [] && Deletable(keys, databaseFilename) == keys;
    assert "a\nb"[1] != "a\rb"[1];
  }

  lemma LocalKeyStays(c: Config, s: State, databaseFilename: string, list: seq<string>, i: nat)
    requires c.folder == "" && i < |c.files| && ToDelete(s.table, LocalPaths(c), list)
    ensures Key(c, i) !in Deletable(list, databaseFilename)
  {
    var key := Key(c, i);
    assert LocalPaths(c)[i][1..] == key;
    assert IsLocal(LocalPaths(c), key);
    OnListExactly(s.table, LocalPaths(c), databaseFilename, list, key);
  }

  // Upload and rebuild

  /** A rebuild after the run finds of a file what the table says of it. */
  ghost predicate GivenBack(c: Config, s: State, i: nat)
    requires i < |c.files|
  {
    At(Rebuilt(s.remote), Key(c, i)) == At(s.table, Key(c, i))
  }

  /** The store has been told the contents and the time of a file: contents were sent; or it had them already, and
      the metadata update took effect or was not needed. */
  ghost predicate Told(c: Config, r0: Remote, i: nat, w: Worker)
    requires i < |c.files| && c.files[i].stat.Stat?
  {
    || !MetaOnly(c.files[i], w.stored)
    || (Md5At(r0, Key(c, i)) == Some(c.files[i].md5)
        && (w.refreshed || r0[Key(c, i)].mtime % TWO32 == MtimeOf(c, i) % TWO32))
  }

  /** After a successful upload a rebuild of the store gives back the row of a dispatched file exactly if the store
      has been told about it, and of every other key what it would have given back before the upload. */
  lemma RebuildGivesBack(c: Config, t0: Table, r0: Remote, events: seq<Event>)
    requires ValidConfig(c) && !c.dryRun && Run(c, Init(c, t0, r0), events).Some?
    requires Run(c, Init(c, t0, r0), events).value.pc == Decided(true)
    ensures var s := Run(c, Init(c, t0, r0), events).value;
            && (forall i :: i in s.workers ==>
                  i < |c.files| && c.files[i].stat.Stat? && (GivenBack(c, s, i) <==> Told(c, r0, i, s.workers[i])))
            && (forall key :: !Owned(c, s, key) ==>
                  At(Rebuilt(s.remote), key) == At(Rebuilt(r0), key) && At(s.table, key) == At(t0, key))
  {
    var s := Run(c, Init(c, t0, r0), events).value;
    Reached(c, t0, r0, events);
    VerdictIsComplete(c, t0, r0, events);
    forall i | i in s.workers
      ensures i < |c.files| && c.files[i].stat.Stat? && (GivenBack(c, s, i) <==> Told(c, r0, i, s.workers[i]))
    {
      WorkerGivesBack(c, t0, r0, s, i, s.workers[i]);
    }
    forall key | !Owned(c, s, key)
      ensures At(Rebuilt(s.remote), key) == At(Rebuilt(r0), key) && At(s.table, key) == At(t0, key)
    {
      assert Untouched(t0, r0, s, key);
    }
  }

  lemma WorkerGivesBack(c: Config, t0: Table, r0: Remote, s: State, i: nat, w: Worker)
    requires WorkerOk(c, t0, r0, s, i, w) && w.phase == Gone(true) && !c.dryRun
    ensures GivenBack(c, s, i) <==> Told(c, r0, i, w)
  {
  }

  /** Every metadata update of the run took effect in the store. */
  ghost predicate AllTook(c: Config, s: State) {
    forall i :: i in s.workers && i < |c.files| && c.files[i].stat.Stat? ==>
      (MetaOnly(c.files[i], s.workers[i].stored) ==> s.workers[i].refreshed)
  }

  /** Upload and rebuild: from a table that a rebuild of the store gives, with times that fit, a successful upload
      leads to a table that a rebuild of the store gives, if and only if every metadata update took effect. */
  lemma UploadThenRebuild(c: Config, r0: Remote, events: seq<Event>)
    requires ValidConfig(c) && TimesFit(c) && !c.dryRun && Run(c, Init(c, Rebuilt(r0), r0), events).Some?
    requires Run(c, Init(c, Rebuilt(r0), r0), events).value.pc == Decided(true)
    ensures var s := Run(c, Init(c, Rebuilt(r0), r0), events).value;
            s.table == Rebuilt(s.remote) <==> AllTook(c, s)
  {
    var t0 := Rebuilt(r0);
    var s := Run(c, Init(c, t0, r0), events).value;
    Reached(c, t0, r0, events);
    VerdictIsComplete(c, t0, r0, events);
    RebuildGivesBack(c, t0, r0, events);
    forall i | i in s.workers
      ensures i < |c.files| && c.files[i].stat.Stat?
      ensures GivenBack(c, s, i) <==> (MetaOnly(c.files[i], s.workers[i].stored) ==> s.workers[i].refreshed)
    {
      ToldExactly(c, r0, s, i, s.workers[i]);
    }
    if AllTook(c, s) {
      forall key
        ensures At(Rebuilt(s.remote), key) == At(s.table, key)
      {
        if Owned(c, s, key) {
          var i :| i in s.workers && i < |c.files| && Key(c, i) == key;
          assert GivenBack(c, s, i);
        }
      }
      SameTables(s.table, Rebuilt(s.remote));
    }
  }

  /** A file that is dispatched although its contents are recorded has another time than the store knows. */
  lemma ToldExactly(c: Config, r0: Remote, s: State, i: nat, w: Worker)
    requires WorkerOk(c, Rebuilt(r0), r0, s, i, w) && TimesFit(c)
    ensures Told(c, r0, i, w) <==> (MetaOnly(c.files[i], w.stored) ==> w.refreshed)
  {
    SmallTimes(MtimeOf(c, i));
  }

  lemma SameTables(a: Table, b: Table)
    requires forall key :: At(b, key) == At(a, key)
    ensures a == b
  {
    forall key
      ensures key in a <==> key in b
      ensures key in a ==> a[key] == b[key]
    {
      assert At(b, key) == At(a, key);
    }
  }
}
