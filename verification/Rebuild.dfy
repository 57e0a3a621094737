/** rebuildDatabase of src/main.cc. */
module Rebuild {
  import opened RemoteList
  import opened Storage
  import opened UploadRun
  import opened Words
  import opened Wrappers
  import HeadRun

  /** Listed objects whose paths are all different, as they are in one bucket. */
  ghost predicate DistinctPaths(entries: seq<Entry>) {
    forall i, j :: 0 <= i < j < |entries| ==> entries[i].path != entries[j].path
  }

  /** The table says of every entry what the entry says, and says nothing else. */
  ghost predicate Mirrors(table: Table, entries: seq<Entry>) {
    && |table| == |entries|
    && (forall i :: 0 <= i < |entries| ==>
          entries[i].path in table && table[entries[i].path] == Row(entries[i].md5, entries[i].mtime))
    && forall key :: key in table ==> Listed(entries, key)
  }

  lemma AcceptedAll(entries: seq<Entry>)
    ensures Accepted(map[], entries) == |entries| <==> DistinctPaths(entries)
    ensures DistinctPaths(entries) ==> Mirrors(Inserted(map[], entries), entries)
  {
    AcceptedMeans(map[], entries);
    if Accepted(map[], entries) == |entries| {
      InsertedRows(map[], entries);
      forall key ensures key in Inserted(map[], entries) <==> Listed(entries, key) {
        InsertedKeys(map[], entries, key);
      }
      forall i | 0 <= i < |entries| ensures Listed(entries, entries[i].path) {
      }
    }
  }

  /** The table that a rebuild makes of a store. */
  function Rebuilt(remote: Remote): Table {
    map key | key in remote :: Row(remote[key].md5, remote[key].mtime % TWO32)
  }

  /** The entries list the store completely, with the times of the metadata modulo 2^32. */
  ghost predicate ListsStore(entries: seq<Entry>, remote: Remote) {
    && (forall key :: key in remote <==> Listed(entries, key))
    && forall i :: 0 <= i < |entries| && entries[i].path in remote ==>
         && entries[i].md5 == remote[entries[i].path].md5
         && entries[i].mtime == remote[entries[i].path].mtime % TWO32
  }

  lemma RebuildsStore(table: Table, entries: seq<Entry>, remote: Remote)
    requires Mirrors(table, entries) && ListsStore(entries, remote)
    ensures table == Rebuilt(remote)
  {
    forall key
      ensures key in table <==> key in remote
      ensures key in remote ==> table[key] == Rebuilt(remote)[key]
    {
      if Listed(entries, key) {
        var i :| 0 <= i < |entries| && entries[i].path == key;
        assert table[entries[i].path] == Row(entries[i].md5, entries[i].mtime);
      }
    }
  }

  /** The metadata requests of resolveMtimes, as any decided run of them. */
  method ResolveMtimes(list: RemoteListOfFiles, run: HeadRun.State, ghost meta: HeadRun.Meta,
                       ghost events: seq<HeadRun.Event>)
    returns (ok: bool)
    requires list.Valid() && |meta| == list.count
    requires HeadRun.Run(meta, HeadRun.Init(meta), events) == Some(run) && run.pc.Decided?
    modifies list.mtimes
    ensures list.Valid() && ok == run.pc.success
    ensures ok ==> list.mtimes[..list.count] == HeadRun.Truncated(meta)
  {
    HeadRun.ResolvesAll(meta, events);
    var i := 0;
    while i < list.count
      invariant i <= list.count && list.mtimes[..i] == run.mtimes[..i]
    {
      list.mtimes[i] := run.mtimes[i];
      i := i + 1;
    }
    ok := run.pc.success;
  }

  /** The whole rebuild, with downloadList's result and the listing given. When it succeeds, and is not dry, the
      table mirrors the listing with the times that the objects' metadata say, modulo 2^32; it succeeds exactly when
      the listing and every metadata request did and no key is listed twice. A dry rebuild leaves the table alone. */
  method RebuildDatabase(list: RemoteListOfFiles, downloaded: bool, run: HeadRun.State, ghost meta: HeadRun.Meta,
                         ghost events: seq<HeadRun.Event>, fileListStorage: FileListStorage, dryRun: bool)
    returns (ok: bool)
    requires list.Valid() && list.count <= MAX_LIST && |meta| == list.count
    requires HeadRun.Run(meta, HeadRun.Init(meta), events) == Some(run) && run.pc.Decided?
    requires fileListStorage.Valid() && !fileListStorage.inTransaction
    modifies list.mtimes, fileListStorage
    ensures list.Valid() && fileListStorage.Valid()
    ensures ok <==> downloaded && run.pc.success && (dryRun || DistinctPaths(list.Entries()))
    ensures ok ==> list.mtimes[..list.count] == HeadRun.Truncated(meta)
    ensures ok && !dryRun ==>
              && !fileListStorage.inTransaction && fileListStorage.committed == fileListStorage.files
              && Mirrors(fileListStorage.files, list.Entries())
    ensures downloaded && run.pc.success && !dryRun ==>
              ListResult(map[], list.Entries(), ok, fileListStorage.files, fileListStorage.committed)
    ensures downloaded && run.pc.success && !dryRun ==> RowsFit(fileListStorage.files)
    ensures dryRun || !downloaded || !run.pc.success ==> fileListStorage.files == old(fileListStorage.files)
  {
    if !downloaded {
      return false;
    }
    ok := ResolveMtimes(list, run, meta, events);
    if !ok {
      return;
    }
    if dryRun {
      return true;
    }
    assert forall i :: 0 <= i < list.count ==> list.mtimes[i] == list.mtimes[..list.count][i];
    ok := ReplaceTable(list, fileListStorage);
  }

  /** The end of rebuildDatabase: the table is emptied, and the list is stored. */
  method ReplaceTable(list: RemoteListOfFiles, fileListStorage: FileListStorage) returns (ok: bool)
    requires list.Valid() && list.count <= MAX_LIST && fileListStorage.Valid() && !fileListStorage.inTransaction
    requires forall i :: 0 <= i < list.count ==> list.mtimes[i] < TWO32
    modifies fileListStorage
    ensures fileListStorage.Valid() && ok == DistinctPaths(list.Entries())
    ensures ok ==>
              && !fileListStorage.inTransaction && fileListStorage.committed == fileListStorage.files
              && Mirrors(fileListStorage.files, list.Entries())
    ensures ListResult(map[], list.Entries(), ok, fileListStorage.files, fileListStorage.committed)
    ensures RowsFit(fileListStorage.files)
  {
    ok := fileListStorage.Truncate();
    ghost var entries := list.Entries();
    AcceptedAll(entries);
    ok := fileListStorage.StoreRemoteListOfFiles(list);
    assert entries[..list.count] == entries;
    InsertedFit(map[], entries[..Accepted(map[], entries)]);
  }
}
