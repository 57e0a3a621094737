/** The database of src/fileListStorage.cc: one table with a primary key, transactions, and a temporary table.
    Statements fail when the state of the database makes them fail, and only then. */
module Storage {
  import opened Wrappers
  import opened RemoteList
  import opened Strings
  import opened Words

  datatype Row = Row(md5: string, mtime: nat)
  type Table = map<string, Row>

  /** A key without a row reads as an empty MD5 and a modification time of zero. */
  function RowAt(table: Table, key: string): Row {
    if key in table then table[key] else Row("", 0)
  }

  /** The times of all rows fit in thirty-two bits. */
  ghost predicate RowsFit(table: Table) {
    forall key :: key in table ==> table[key].mtime < TWO32
  }

  /** The longest list that the chunk arithmetic of the source, done in int, can handle. */
  const MAX_LIST: nat := 2147483600

  const CHUNK: nat := 100

  /** The table after the given entries have been inserted one after the other. */
  function Inserted(table: Table, entries: seq<Entry>): Table
    decreases |entries|
  {
    if entries == [] then table
    else
      var last := entries[|entries| - 1];
      Inserted(table, entries[..|entries| - 1])[last.path := Row(last.md5, last.mtime)]
  }

  ghost predicate Listed(entries: seq<Entry>, path: string) {
    exists i :: 0 <= i < |entries| && entries[i].path == path
  }

  /** INSERT fails on a key that is there already. The number of entries inserted before that happens. */
  ghost function Accepted(table: Table, entries: seq<Entry>): (n: nat)
    ensures n <= |entries|
    decreases |entries|
  {
    if entries == [] then 0
    else
      var front, last := entries[..|entries| - 1], entries[|entries| - 1];
      var n := Accepted(table, front);
      if n < |front| || last.path in table || Listed(front, last.path) then n else |entries|
  }

  /** It is the length of the longest part of the list whose paths are new and distinct. */
  lemma {:induction false} AcceptedMeans(table: Table, entries: seq<Entry>)
    ensures var n := Accepted(table, entries);
            && (forall i :: 0 <= i < n ==> entries[i].path !in table)
            && (forall i, j :: 0 <= i < j < n ==> entries[i].path != entries[j].path)
            && (n < |entries| ==>
                  entries[n].path in table || exists j :: 0 <= j < n && entries[j].path == entries[n].path)
    decreases |entries|
  {
    if entries != [] {
      var front := entries[..|entries| - 1];
      AcceptedMeans(table, front);
      var n := Accepted(table, front);
      if n < |front| && entries[n].path !in table {
        var j :| 0 <= j < n && front[j].path == front[n].path;
        assert entries[j].path == entries[n].path;
      } else if n == |front| && Listed(front, entries[n].path) {
        var j :| 0 <= j < n && front[j].path == entries[n].path;
        assert entries[j].path == entries[n].path;
      }
    }
  }

  lemma OneMore(table: Table, front: seq<Entry>, last: Entry)
    ensures Inserted(table, front + [last]) == Inserted(table, front)[last.path := Row(last.md5, last.mtime)]
    ensures Accepted(table, front + [last])
            == if Accepted(table, front) < |front| || last.path in Inserted(table, front) then Accepted(table, front)
               else |front| + 1
  {
    assert (front + [last])[..|front|] == front;
    InsertedKeys(table, front, last.path);
  }

  lemma ListedConcat(a: seq<Entry>, b: seq<Entry>, path: string)
    ensures Listed(a + b, path) <==> Listed(a, path) || Listed(b, path)
  {
    if Listed(a, path) {
      var i :| 0 <= i < |a| && a[i].path == path;
      assert (a + b)[i].path == path;
    }
    if Listed(b, path) {
      var i :| 0 <= i < |b| && b[i].path == path;
      assert (a + b)[|a| + i].path == path;
    }
  }

  lemma {:induction false} InsertedKeys(table: Table, entries: seq<Entry>, key: string)
    ensures key in Inserted(table, entries) <==> key in table || Listed(entries, key)
    decreases |entries|
  {
    if entries != [] {
      var front, last := entries[..|entries| - 1], entries[|entries| - 1];
      InsertedKeys(table, front, key);
      ListedConcat(front, [last], key);
      assert front + [last] == entries && (Listed([last], key) <==> [last][0].path == key);
    }
  }

  /** When nothing clashes the table gains exactly one row for each entry. */
  lemma {:induction false} InsertedRows(table: Table, entries: seq<Entry>)
    requires Accepted(table, entries) == |entries|
    ensures |Inserted(table, entries)| == |table| + |entries|
    ensures forall i :: 0 <= i < |entries| ==>
              RowAt(Inserted(table, entries), entries[i].path) == Row(entries[i].md5, entries[i].mtime)
    ensures forall key :: key in table ==>
              key in Inserted(table, entries) && Inserted(table, entries)[key] == table[key]
    decreases |entries|
  {
    if entries != [] {
      var n := |entries| - 1;
      var front := entries[..n];
      assert Accepted(table, front) == n;
      InsertedRows(table, front);
      InsertedKeys(table, front, entries[n].path);
      forall i | 0 <= i < n
        ensures RowAt(Inserted(table, entries), entries[i].path) == Row(entries[i].md5, entries[i].mtime)
      {
        assert front[i] == entries[i] && entries[i].path != entries[n].path;
      }
    }
  }

  lemma {:induction false} InsertedFit(table: Table, entries: seq<Entry>)
    requires RowsFit(table) && forall i :: 0 <= i < |entries| ==> entries[i].mtime < TWO32
    ensures RowsFit(Inserted(table, entries))
    decreases |entries|
  {
    if entries != [] {
      InsertedFit(table, entries[..|entries| - 1]);
    }
  }

  /** What has been accepted of a list is what is accepted of it from some place on, after the part before it. */
  lemma {:induction false} AcceptedFrom(table: Table, before: seq<Entry>, rest: seq<Entry>)
    requires Accepted(table, before) == |before|
    ensures Accepted(table, before + rest) == |before| + Accepted(Inserted(table, before), rest)
    ensures Inserted(table, before + rest) == Inserted(Inserted(table, before), rest)
    decreases |rest|
  {
    if rest == [] {
      assert before + rest == before;
    } else {
      var front, last := rest[..|rest| - 1], rest[|rest| - 1];
      AcceptedFrom(table, before, front);
      OneMoreAfter(table, before, front, last);
      assert before + rest == before + front + [last] && rest == front + [last];
    }
  }

  lemma OneMoreAfter(table: Table, before: seq<Entry>, front: seq<Entry>, last: Entry)
    requires Accepted(table, before) == |before|
    requires Accepted(table, before + front) == |before| + Accepted(Inserted(table, before), front)
    requires Inserted(table, before + front) == Inserted(Inserted(table, before), front)
    ensures Accepted(table, before + front + [last])
            == |before| + Accepted(Inserted(table, before), front + [last])
    ensures Inserted(table, before + front + [last]) == Inserted(Inserted(table, before), front + [last])
  {
    OneMore(table, before + front, last);
    OneMore(Inserted(table, before), front, last);
  }

  /** Inserting stops for good at the first clash. */
  lemma {:induction false} AcceptedStops(table: Table, entries: seq<Entry>, n: nat)
    requires n < |entries| && Accepted(table, entries[..n]) == n
    requires entries[n].path in Inserted(table, entries[..n])
    ensures Accepted(table, entries) == n
    decreases |entries|
  {
    InsertedKeys(table, entries[..n], entries[n].path);
    if |entries| == n + 1 {
      assert entries[..|entries| - 1] == entries[..n];
    } else {
      var front := entries[..|entries| - 1];
      assert front[..n] == entries[..n];
      AcceptedStops(table, front, n);
    }
  }

  /** What comes after a clash does not matter. */
  lemma {:induction false} AcceptedPrefix(table: Table, entries: seq<Entry>, k: nat)
    requires k <= |entries| && Accepted(table, entries[..k]) < k
    ensures Accepted(table, entries) == Accepted(table, entries[..k])
    decreases |entries|
  {
    if k == |entries| {
      assert entries[..k] == entries;
    } else {
      var front := entries[..|entries| - 1];
      assert front[..k] == entries[..k];
      AcceptedPrefix(table, front, k);
    }
  }

  /** One chunk, seen from the whole list: what is before it is in the table already. */
  lemma ChunkOfList(table: Table, before: seq<Entry>, chunk: seq<Entry>, after: seq<Entry>)
    requires Accepted(table, before) == |before|
    ensures var n := Accepted(Inserted(table, before), chunk);
            && Accepted(table, before + chunk) == |before| + n
            && Inserted(Inserted(table, before), chunk[..n]) == Inserted(table, before + chunk[..n])
            && (n < |chunk| ==> Accepted(table, before + chunk + after) == |before| + n)
  {
    var n := Accepted(Inserted(table, before), chunk);
    AcceptedFrom(table, before, chunk);
    AcceptedFrom(table, before, chunk[..n]);
    if n < |chunk| {
      var all := before + chunk + after;
      assert all[..|before + chunk|] == before + chunk;
      AcceptedPrefix(table, all, |before + chunk|);
    }
  }

  /** One turn of the loop over a chunk. */
  lemma NextRow(table: Table, chunk: seq<Entry>, j: nat)
    requires j < |chunk| && Accepted(table, chunk[..j]) == j
    ensures var done := Inserted(table, chunk[..j]);
            if chunk[j].path in done then Accepted(table, chunk) == j
            else Loaded(table, chunk, j + 1, done[chunk[j].path := Row(chunk[j].md5, chunk[j].mtime)])
  {
    if chunk[j].path in Inserted(table, chunk[..j]) {
      AcceptedStops(table, chunk, j);
    } else {
      OneMore(table, chunk[..j], chunk[j]);
      assert chunk[..j] + [chunk[j]] == chunk[..j + 1];
    }
  }

  /** The first n entries have all been inserted. */
  ghost predicate Loaded(table: Table, entries: seq<Entry>, n: nat, now: Table) {
    n <= |entries| && Accepted(table, entries[..n]) == n && now == Inserted(table, entries[..n])
  }

  /** What becomes of a chunk inserted into a table of which everything is committed. */
  ghost predicate ChunkResult(table: Table, chunk: seq<Entry>, ok: bool, files: Table, committed: Table) {
    var n := Accepted(table, chunk);
    && ok == (n == |chunk|) && files == Inserted(table, chunk[..n])
    && committed == if ok then files else table
  }

  /** What becomes of a whole list: after a clash, what stays is what the complete chunks before it committed. */
  ghost predicate ListResult(table: Table, entries: seq<Entry>, ok: bool, files: Table, committed: Table) {
    var n := Accepted(table, entries);
    && ok == (n == |entries|) && files == Inserted(table, entries[..n])
    && committed == if ok then files else Inserted(table, entries[..n / CHUNK * CHUNK])
  }

  /** Where a list clashes for the first time, without naming the count. */
  ghost predicate FirstClash(table: Table, entries: seq<Entry>, n: nat) {
    && n < |entries|
    && (forall i :: 0 <= i < n ==> entries[i].path !in table)
    && (forall i, j :: 0 <= i < j < n ==> entries[i].path != entries[j].path)
    && (entries[n].path in table || exists j :: 0 <= j < n && entries[j].path == entries[n].path)
  }

  lemma AcceptedIs(table: Table, entries: seq<Entry>, n: nat)
    requires FirstClash(table, entries, n)
    ensures Accepted(table, entries) == n
  {
    AcceptedMeans(table, entries);
  }

  lemma AcceptedPart(table: Table, entries: seq<Entry>, k: nat)
    requires k <= Accepted(table, entries)
    ensures Accepted(table, entries[..k]) == k
  {
    AcceptedMeans(table, entries);
    AcceptedMeans(table, entries[..k]);
  }

  /** After a clash at entry n the whole hundreds of entries before n are committed, and nothing else is new. */
  lemma WholeHundreds(table: Table, entries: seq<Entry>, files: Table, committed: Table, n: nat, key: string)
    requires ListResult(table, entries, false, files, committed) && FirstClash(table, entries, n)
    ensures key in committed <==> key in table || exists i :: 0 <= i < n - n % 100 && entries[i].path == key
    ensures key in table ==> committed[key] == table[key]
    ensures forall i :: 0 <= i < n - n % 100 ==>
              RowAt(committed, entries[i].path) == Row(entries[i].md5, entries[i].mtime)
  {
    AcceptedIs(table, entries, n);
    var k := n - n % 100;
    var whole := entries[..k];
    assert k == n / CHUNK * CHUNK;
    AcceptedPart(table, entries, k);
    InsertedRows(table, whole);
    InsertedKeys(table, whole, key);
    if i :| 0 <= i < k && entries[i].path == key {
      assert whole[i].path == key;
    }
    forall i | 0 <= i < k
      ensures RowAt(committed, entries[i].path) == Row(entries[i].md5, entries[i].mtime)
    {
      assert whole[i] == entries[i];
    }
  }

  /** One turn of the loop over the chunks. */
  lemma NextChunk(table: Table, entries: seq<Entry>, i: nat, max: nat, now: Table, ok: bool, files: Table,
                  committed: Table)
    requires Loaded(table, entries, i * CHUNK, now) && i * CHUNK < max <= |entries| && max <= i * CHUNK + CHUNK
    requires ChunkResult(now, entries[i * CHUNK..max], ok, files, committed)
    ensures if ok then Loaded(table, entries, max, files) else ListResult(table, entries, ok, files, committed)
  {
    var before, chunk, after := entries[..i * CHUNK], entries[i * CHUNK..max], entries[max..];
    assert before + chunk == entries[..max];
    if ok {
      ChunkOfList(table, before, chunk, after);
      assert chunk[..|chunk|] == chunk;
    } else {
      assert entries[..max] + after == entries;
      ChunkClash(table, i, before, chunk, after, files, committed);
    }
  }

  lemma ChunkClash(table: Table, i: nat, before: seq<Entry>, chunk: seq<Entry>, after: seq<Entry>, files: Table,
                   committed: Table)
    requires |before| == i * CHUNK && |chunk| <= CHUNK && Accepted(table, before) == |before|
    requires ChunkResult(Inserted(table, before), chunk, false, files, committed)
    ensures ListResult(table, before + chunk + after, false, files, committed)
  {
    var n := Accepted(Inserted(table, before), chunk);
    ChunkOfList(table, before, chunk, after);
    CompleteChunks(i, n);
    Beginnings(before, chunk, after, n);
  }

  lemma Beginnings(before: seq<Entry>, chunk: seq<Entry>, after: seq<Entry>, n: nat)
    requires n <= |chunk|
    ensures (before + chunk + after)[..|before| + n] == before + chunk[..n]
    ensures (before + chunk + after)[..|before|] == before
  {
  }

  lemma CompleteChunks(i: nat, n: nat)
    requires n < CHUNK
    ensures (i * CHUNK + n) / CHUNK * CHUNK == i * CHUNK
  {
  }

  // Deletion

  ghost predicate IsLocal(paths: seq<string>, key: string) {
    exists i :: 0 <= i < |paths| && |paths[i]| > 0 && paths[i][1..] == key
  }

  predicate Distinct(keys: seq<string>) {
    forall i, j :: 0 <= i < j < |keys| ==> keys[i] != keys[j]
  }

  /** The keys that are no local path, each once. */
  ghost predicate ToDelete(table: Table, paths: seq<string>, list: seq<string>) {
    Distinct(list) && forall key :: key in list <==> key in table && !IsLocal(paths, key)
  }

  function Without<V>(m: map<string, V>, keys: seq<string>): map<string, V> {
    map key | key in m && key !in keys :: m[key]
  }

  lemma OneMoreLocal(paths: seq<string>, i: nat)
    requires i < |paths| && |paths[i]| > 0
    ensures forall key :: IsLocal(paths[..i + 1], key) <==> IsLocal(paths[..i], key) || key == paths[i][1..]
  {
  }

  lemma FirstZero(md5: string, bound: string)
    requires '\0' !in md5 && |bound| == 32
    requires if |md5| < 32 then md5 + "\0" <= bound else bound == md5[..32]
    ensures CString(bound) == if |md5| < 32 then md5 else md5[..32]
  {
    CStringIs(bound, if |md5| < 32 then |md5| else 32);
  }

  class FileListStorage {
    /** The table files as this connection sees it, and as it would be found after a crash. */
    var files: Table
    var committed: Table
    var inTransaction: bool
    /** The temporary table of calculateListOfFilesToDelete, which a failed call leaves behind. */
    var localFiles: Option<set<string>>

    ghost predicate Valid()
      reads this
    {
      !inTransaction ==> committed == files
    }

    constructor (table: Table)
      ensures Valid() && !inTransaction && files == table && localFiles == None
    {
      files, committed, inTransaction, localFiles := table, table, false, None;
    }

    method Begin() returns (ok: bool)
      requires Valid()
      modifies this`inTransaction
      ensures Valid() && ok == !old(inTransaction) && inTransaction
    {
      ok := !inTransaction;
      inTransaction := true;
    }

    method End()
      requires inTransaction
      modifies this`inTransaction, this`committed
      ensures Valid() && !inTransaction && committed == files
    {
      committed, inTransaction := files, false;
    }

    /** A statement that does not work leaves an empty MD5 and time zero, as a key without a row does. */
    method Lookup(remotePath: string, works: bool) returns (ok: bool, md5: string, mtime: nat)
      ensures ok == works
      ensures Row(md5, mtime) == if works then RowAt(files, remotePath) else Row("", 0)
    {
      ok, md5, mtime := works, "", 0;
      if works && remotePath in files {
        md5, mtime := files[remotePath].md5, files[remotePath].mtime;
      }
    }

    /** REPLACE: the row is there afterwards, whether it was before or not, unless the statement does not work.
        Thirty-two bytes are bound from where the MD5 lies in memory, whatever its length; what a lookup gives back
        ends at the first zero. */
    method Store(remotePath: string, md5: string, behind: string, mtime: nat, works: bool) returns (ok: bool)
      requires Valid() && '\0' !in md5 && |md5 + "\0" + behind| >= 32
      modifies this`files, this`committed
      ensures Valid() && ok == works
      ensures !ok ==> files == old(files)
      ensures ok ==> files.Keys == old(files).Keys + {remotePath}
      ensures ok ==> RowAt(files, remotePath) == Row(if |md5| < 32 then md5 else md5[..32], mtime)
      ensures forall key :: key != remotePath ==> RowAt(files, key) == RowAt(old(files), key)
    {
      ok := works;
      if !works {
        return;
      }
      var bound := (md5 + "\0" + behind)[..32];
      FirstZero(md5, bound);
      files := files[remotePath := Row(CString(bound), mtime)];
      if !inTransaction {
        committed := files;
      }
    }

    method Truncate() returns (ok: bool)
      requires Valid()
      modifies this`files, this`committed, this`inTransaction
      ensures Valid() && ok == !old(inTransaction)
      ensures ok ==> files == committed == map[] && !inTransaction
      ensures !ok ==> files == old(files) && committed == old(committed) && inTransaction
    {
      ok := Begin();
      if ok {
        files := map[];
        End();
      }
    }

    /** Rows from..to of the list, all of them or none: a clash leaves the transaction open and nothing committed. */
    method StoreChunk(list: RemoteListOfFiles, from: nat, to: nat) returns (ok: bool)
      requires Valid() && list.Valid() && from <= to <= list.count
      modifies this`files, this`committed, this`inTransaction
      ensures Valid()
      ensures old(inTransaction) ==> !ok && files == old(files) && committed == old(committed) && inTransaction
      ensures !old(inTransaction) ==>
                inTransaction == !ok && ChunkResult(old(files), list.Entries()[from..to], ok, files, committed)
    {
      ok := Begin();
      if !ok {
        return;
      }
      ghost var chunk := list.Entries()[from..to];
      var i, j := from, 0;
      while i < to
        invariant from <= i <= to && j == i - from && inTransaction && committed == old(committed)
        invariant Loaded(old(files), chunk, j, files)
      {
        NextRow(old(files), chunk, j);
        assert chunk[j] == list.Entries()[i];
        if list.paths[i] in files {
          return false;
        }
        files := files[list.paths[i] := Row(list.md5s[i], list.mtimes[i])];
        i, j := i + 1, j + 1;
      }
      assert chunk[..j] == chunk;
      End();
    }

    /** The windows tile the list: the result is that of inserting the whole list. After a clash, what stays is
        what the complete chunks before it have committed. */
    method StoreRemoteListOfFiles(list: RemoteListOfFiles) returns (ok: bool)
      requires Valid() && list.Valid() && list.count <= MAX_LIST
      modifies this`files, this`committed, this`inTransaction
      ensures Valid()
      ensures old(inTransaction) ==> !ok && files == old(files) && committed == old(committed) && inTransaction
      ensures !old(inTransaction) ==>
                inTransaction == !ok && ListResult(old(files), list.Entries(), ok, files, committed)
    {
      if list.count <= CHUNK {
        ok := StoreChunk(list, 0, list.count);
        assert list.Entries()[0..list.count] == list.Entries();
        return;
      }
      var chunks := list.count / CHUNK;
      if chunks * CHUNK < list.count {
        chunks := chunks + 1;
      }
      ok := StoreChunks(list, chunks);
    }

    method StoreChunks(list: RemoteListOfFiles, chunks: nat) returns (ok: bool)
      requires Valid() && list.Valid() && 0 < chunks && (chunks - 1) * CHUNK < list.count <= chunks * CHUNK
      modifies this`files, this`committed, this`inTransaction
      ensures Valid()
      ensures old(inTransaction) ==> !ok && files == old(files) && committed == old(committed) && inTransaction
      ensures !old(inTransaction) ==>
                inTransaction == !ok && ListResult(old(files), list.Entries(), ok, files, committed)
    {
      ghost var entries := list.Entries();
      var i := 0;
      while i < chunks
        invariant 0 <= i <= chunks && Valid() && inTransaction == old(inTransaction)
        invariant inTransaction ==> i == 0 && files == old(files) && committed == old(committed)
        invariant !inTransaction ==> Loaded(old(files), entries, if i < chunks then i * CHUNK else list.count, files)
      {
        var max := (i + 1) * CHUNK;
        if max > list.count {
          max := list.count;
        }
        ghost var now := files;
        ok := StoreChunk(list, i * CHUNK, max);
        if !old(inTransaction) {
          NextChunk(old(files), entries, i, max, now, ok, files, committed);
        }
        if !ok {
          return;
        }
        i := i + 1;
      }
      assert entries[..list.count] == entries;
      return true;
    }

    /** The keys of the table that are no local path, in any order. The first character of each local path, a slash,
        is skipped. Two equal paths make an INSERT fail, and so does whatever a failed call has left behind. */
    method CalculateListOfFilesToDelete(paths: seq<string>) returns (list: Option<seq<string>>)
      requires Valid() && forall i :: 0 <= i < |paths| ==> |paths[i]| > 0
      modifies this`inTransaction, this`committed, this`localFiles
      ensures Valid()
      ensures list == None <==>
                old(localFiles).Some? || old(inTransaction)
                || exists i, j :: 0 <= i < j < |paths| && paths[i][1..] == paths[j][1..]
      ensures list.Some? ==> localFiles == None && !inTransaction
      ensures list.Some? ==> ToDelete(files, paths, list.value)
    {
      if localFiles.Some? {
        return None;
      }
      localFiles := Some({});
      var ok := Begin();
      if !ok {
        return None;
      }
      var i := 0;
      while i < |paths|
        invariant 0 <= i <= |paths| && localFiles.Some? && inTransaction
        invariant forall key :: key in localFiles.value <==> IsLocal(paths[..i], key)
        invariant forall j, k :: 0 <= j < k < i ==> paths[j][1..] != paths[k][1..]
      {
        var path := paths[i][1..];
        if path in localFiles.value {
          return None;
        }
        OneMoreLocal(paths, i);
        localFiles := Some(localFiles.value + {path});
        i := i + 1;
      }
      assert paths[..i] == paths;
      End();
      var rest := set key | key in files && key !in localFiles.value;
      var keys := [];
      while rest != {}
        invariant forall key :: key in keys || key in rest <==> key in files && key !in localFiles.value
        invariant Distinct(keys) && forall key :: key in keys ==> key !in rest
        decreases |rest|
      {
        var key :| key in rest;
        keys, rest := keys + [key], rest - {key};
      }
      localFiles := None;
      list := Some(keys);
    }

    method StoreDeletedBatch(batch: array<string>, batchCount: nat) returns (ok: bool)
      requires Valid() && batchCount <= batch.Length
      modifies this`files, this`committed, this`inTransaction
      ensures Valid() && ok == !old(inTransaction)
      ensures ok ==> files == Without(old(files), batch[..batchCount]) && !inTransaction
      ensures !ok ==> files == old(files) && committed == old(committed) && inTransaction
    {
      ok := Begin();
      if !ok {
        return;
      }
      var i := 0;
      while i < batchCount
        invariant i <= batchCount && inTransaction && files == Without(old(files), batch[..i])
      {
        files := files - {batch[i]};
        i := i + 1;
      }
      End();
    }
  }
}
