/** Deletion of remote objects in batches, src/deleter.cc. */
module Deleter {
  import opened Storage
  import opened Xml
  import opened XmlText

  const BATCH_SIZE: nat := 999

  /** A request as posted, and the HTTP status it got: zero when there was no answer, or when it could not be sent. */
  datatype Request = Request(body: string, status: nat)

  /** Keys are C strings, which cannot contain a zero. */
  ghost predicate CStrings(keys: seq<string>) {
    forall key :: key in keys ==> '\0' !in key
  }

  /** The database of the program and its journal are never deleted. */
  predicate IsDatabase(path: string, databaseFilename: string) {
    path == databaseFilename + "-journal" || path == databaseFilename
  }

  function Deletable(paths: seq<string>, databaseFilename: string): seq<string>
    decreases |paths|
  {
    if paths == [] then []
    else
      var front, last := paths[..|paths| - 1], paths[|paths| - 1];
      Deletable(front, databaseFilename) + if IsDatabase(last, databaseFilename) then [] else [last]
  }

  lemma {:induction false} DeletableMeans(paths: seq<string>, databaseFilename: string, key: string)
    ensures key in Deletable(paths, databaseFilename)
            <==> key in paths && key != databaseFilename && key != databaseFilename + "-journal"
    decreases |paths|
  {
    if paths != [] {
      var front, last := paths[..|paths| - 1], paths[|paths| - 1];
      assert paths == front + [last];
      DeletableMeans(front, databaseFilename, key);
    }
  }

  /** Without the database in it, a list is deletable as it is. */
  lemma {:induction false} AllDeletable(paths: seq<string>, databaseFilename: string)
    requires databaseFilename !in paths && databaseFilename + "-journal" !in paths
    ensures Deletable(paths, databaseFilename) == paths
    decreases |paths|
  {
    if paths != [] {
      var front, last := paths[..|paths| - 1], paths[|paths| - 1];
      assert paths == front + [last];
      AllDeletable(front, databaseFilename);
    }
  }

  lemma {:induction false} DeletablePrefix(paths: seq<string>, databaseFilename: string, i: nat)
    requires i <= |paths|
    ensures Deletable(paths[..i], databaseFilename) <= Deletable(paths, databaseFilename)
    decreases |paths|
  {
    if i == |paths| {
      assert paths[..i] == paths;
    } else {
      DeletablePrefix(paths[..|paths| - 1], databaseFilename, i);
      assert paths[..|paths| - 1][..i] == paths[..i];
    }
  }

  function Batches(n: nat): nat {
    (n + BATCH_SIZE - 1) / BATCH_SIZE
  }

  function BatchAt(keys: seq<string>, k: nat): seq<string>
    requires k * BATCH_SIZE <= |keys|
  {
    keys[k * BATCH_SIZE..if (k + 1) * BATCH_SIZE <= |keys| then (k + 1) * BATCH_SIZE else |keys|]
  }

  /** The first requests carried the first batches and were all accepted; exactly their keys are gone. */
  ghost predicate Deleted(table: Table, keys: seq<string>, sent: seq<Request>, files: Table) {
    && |sent| * BATCH_SIZE <= |keys|
    && (forall k :: 0 <= k < |sent| ==> sent[k] == Request(Body(DELETE, BatchAt(keys, k)), 200))
    && files == Without(table, keys[..|sent| * BATCH_SIZE])
  }

  /** All batches were accepted, and all keys are gone; or one was refused after others had been accepted, and the
      keys of those are gone. */
  ghost predicate DeletionOutcome(table: Table, keys: seq<string>, sent: seq<Request>, files: Table, ok: bool) {
    if ok then
      && |sent| == Batches(|keys|)
      && (forall k :: 0 <= k < |sent| && k * BATCH_SIZE <= |keys| ==>
            sent[k] == Request(Body(DELETE, BatchAt(keys, k)), 200))
      && files == Without(table, keys)
    else
      && 0 < |sent| <= Batches(|keys|)
      && Deleted(table, keys, sent[..|sent| - 1], files)
      && sent[|sent| - 1].body == Body(DELETE, BatchAt(keys, |sent| - 1)) && sent[|sent| - 1].status != 200
  }

  /** A reader of XML finds the key in one of the requests. */
  ghost predicate Named(sent: seq<Request>, key: string) {
    exists k :: 0 <= k < |sent| && NamedIn(sent[k].body, key)
  }

  ghost predicate NamedIn(body: string, key: string) {
    ReadBody(DELETE, body).Some? && key in ReadBody(DELETE, body).value
  }

  lemma BodiesOf(table: Table, keys: seq<string>, sent: seq<Request>, files: Table, ok: bool, k: nat)
    requires DeletionOutcome(table, keys, sent, files, ok) && k < |sent|
    ensures k * BATCH_SIZE <= |keys| && sent[k].body == Body(DELETE, BatchAt(keys, k))
  {
    if !ok && k < |sent| - 1 {
      assert sent[..|sent| - 1][k] == sent[k];
    }
  }

  /** What a batch names: its keys with their line ends normalised, and nothing if one of them is illegal in XML. */
  lemma BatchNames(batch: seq<string>, key: string)
    ensures NamedIn(Body(DELETE, batch), key)
            <==> AllKeysLegal(batch) && exists i :: 0 <= i < |batch| && key == Normalised(batch[i])
  {
    DeleteWellFormed();
    BodyReads(DELETE, batch);
    if AllKeysLegal(batch) {
      var read := NormalisedAll(batch);
      if key in read {
        var i :| 0 <= i < |read| && read[i] == key;
        assert key == Normalised(batch[i]);
      }
      if i :| 0 <= i < |batch| && key == Normalised(batch[i]) {
        assert read[i] == key;
      }
    }
  }

  /** A deletion of these keys names the key in batch k: no key of the batch is illegal, and one is read as it. */
  ghost predicate NamedByBatch(keys: seq<string>, k: nat, key: string) {
    && k * BATCH_SIZE <= |keys| && AllKeysLegal(BatchAt(keys, k))
    && exists i :: 0 <= i < |BatchAt(keys, k)| && key == Normalised(BatchAt(keys, k)[i])
  }

  /** What the requests of a deletion name, exactly, however far it came. */
  lemma NamedExactly(table: Table, keys: seq<string>, sent: seq<Request>, files: Table, ok: bool, key: string)
    requires DeletionOutcome(table, keys, sent, files, ok)
    ensures Named(sent, key) <==> exists k: nat :: k < |sent| && NamedByBatch(keys, k, key)
  {
    forall k: nat | k < |sent|
      ensures NamedIn(sent[k].body, key) <==> NamedByBatch(keys, k, key)
    {
      BodiesOf(table, keys, sent, files, ok, k);
      BatchNames(BatchAt(keys, k), key);
    }
  }

  /** Some batch of a complete deletion names the key. */
  ghost predicate MayName(keys: seq<string>, key: string) {
    exists k: nat :: NamedByBatch(keys, k, key)
  }

  /** The requests of a deletion all of whose batches are accepted. */
  function AllAccepted(keys: seq<string>): seq<Request> {
    seq(Batches(|keys|), k requires 0 <= k < Batches(|keys|) => Request(Body(DELETE, BatchAt(keys, k)), 200))
  }

  lemma BatchInRange(n: nat, k: nat)
    ensures k * BATCH_SIZE < n <==> k < Batches(n)
  {
  }

  lemma AllAcceptedIsComplete(table: Table, keys: seq<string>)
    ensures DeletionOutcome(table, keys, AllAccepted(keys), Without(table, keys), true)
  {
  }

  /** A key can be named by some deletion exactly if a batch names it. */
  lemma NamedEver(table: Table, keys: seq<string>, key: string)
    ensures MayName(keys, key)
            <==> exists sent, files, ok :: DeletionOutcome(table, keys, sent, files, ok) && Named(sent, key)
  {
    if MayName(keys, key) {
      NamedInTheEnd(table, keys, key);
      assert DeletionOutcome(table, keys, AllAccepted(keys), Without(table, keys), true);
    }
    if sent, files, ok :| DeletionOutcome(table, keys, sent, files, ok) && Named(sent, key) {
      NamedExactly(table, keys, sent, files, ok, key);
    }
  }

  /** A deletion that is complete names all that any deletion of the same keys may name. */
  lemma NamedInTheEnd(table: Table, keys: seq<string>, key: string)
    requires MayName(keys, key)
    ensures DeletionOutcome(table, keys, AllAccepted(keys), Without(table, keys), true) && Named(AllAccepted(keys), key)
  {
    var k: nat :| NamedByBatch(keys, k, key);
    BatchInRange(|keys|, k);
    AllAcceptedIsComplete(table, keys);
    NamedExactly(table, keys, AllAccepted(keys), Without(table, keys), true, key);
  }

  /** What is named is the normal form of a key of the list. */
  lemma NamesNormalised(keys: seq<string>, key: string)
    requires MayName(keys, key)
    ensures exists i :: 0 <= i < |keys| && AllLegal(keys[i]) && key == Normalised(keys[i])
  {
    var k: nat :| NamedByBatch(keys, k, key);
    var i :| 0 <= i < |BatchAt(keys, k)| && key == Normalised(BatchAt(keys, k)[i]);
    assert BatchAt(keys, k)[i] == keys[k * BATCH_SIZE + i];
  }

  ghost predicate AllPlain(keys: seq<string>) {
    forall i :: 0 <= i < |keys| ==> Plain(keys[i])
  }

  /** The requests of a deletion name none but its keys, as long as these come through XML unchanged. */
  lemma NamesOnlyKeys(keys: seq<string>, key: string)
    requires AllPlain(keys) && MayName(keys, key)
    ensures key in keys
  {
    NamesNormalised(keys, key);
    var i :| 0 <= i < |keys| && key == Normalised(keys[i]);
    PlainMeans(keys[i]);
    UnchangedExactly(keys[i]);
  }

  lemma WithoutTwice(table: Table, a: seq<string>, b: seq<string>)
    ensures Without(Without(table, a), b) == Without(table, a + b)
  {
  }

  /** The next batch has been answered: it was refused, or it was full, or it was the last. */
  lemma BatchAnswered(table: Table, keys: seq<string>, sent: seq<Request>, files: Table, answer: Request, files': Table)
    requires Deleted(table, keys, sent, files) && |sent| * BATCH_SIZE < |keys|
    requires answer.body == Body(DELETE, BatchAt(keys, |sent|))
    requires files' == if answer.status == 200 then Without(files, BatchAt(keys, |sent|)) else files
    ensures answer.status != 200 ==> DeletionOutcome(table, keys, sent + [answer], files', false)
    ensures answer.status == 200 ==>
              if |BatchAt(keys, |sent|)| == BATCH_SIZE then Deleted(table, keys, sent + [answer], files')
              else DeletionOutcome(table, keys, sent + [answer], files', true)
  {
    var n := |sent| * BATCH_SIZE;
    if answer.status != 200 {
      assert (sent + [answer])[..|sent|] == sent;
    } else {
      WithoutTwice(table, keys[..n], BatchAt(keys, |sent|));
      if n + BATCH_SIZE <= |keys| {
        assert keys[..n] + BatchAt(keys, |sent|) == keys[..n + BATCH_SIZE];
      } else {
        assert keys[..n] + BatchAt(keys, |sent|) == keys;
      }
    }
  }

  lemma NothingWaiting(table: Table, keys: seq<string>, sent: seq<Request>, files: Table)
    requires Deleted(table, keys, sent, files) && |sent| * BATCH_SIZE == |keys|
    ensures DeletionOutcome(table, keys, sent, files, true)
  {
  }

  /** After the first i paths: n batches were filled, and some keys wait for the next one. */
  ghost predicate Scanned(paths: seq<string>, databaseFilename: string, i: nat, n: nat, waiting: seq<string>) {
    && i <= |paths|
    && var done := Deletable(paths[..i], databaseFilename);
       |done| == n * BATCH_SIZE + |waiting| && done[n * BATCH_SIZE..] == waiting
  }

  lemma OneMorePath(paths: seq<string>, databaseFilename: string, i: nat, n: nat, waiting: seq<string>)
    requires i < |paths| && Scanned(paths, databaseFilename, i, n, waiting)
    ensures Scanned(paths, databaseFilename, i + 1, n,
                    if IsDatabase(paths[i], databaseFilename) then waiting else waiting + [paths[i]])
  {
    assert paths[..i + 1][..i] == paths[..i];
  }

  lemma BatchFilled(paths: seq<string>, databaseFilename: string, i: nat, n: nat, waiting: seq<string>)
    requires Scanned(paths, databaseFilename, i, n, waiting) && |waiting| == BATCH_SIZE
    ensures var keys := Deletable(paths, databaseFilename);
            (n + 1) * BATCH_SIZE <= |keys| && waiting == BatchAt(keys, n)
    ensures Scanned(paths, databaseFilename, i, n + 1, [])
  {
    DeletablePrefix(paths, databaseFilename, i);
    var done, keys := Deletable(paths[..i], databaseFilename), Deletable(paths, databaseFilename);
    assert done == keys[..|done|];
  }

  lemma AllScanned(paths: seq<string>, databaseFilename: string, n: nat, waiting: seq<string>)
    requires Scanned(paths, databaseFilename, |paths|, n, waiting) && |waiting| < BATCH_SIZE
    ensures var keys := Deletable(paths, databaseFilename);
            && |keys| == n * BATCH_SIZE + |waiting| && waiting == BatchAt(keys, n)
            && Batches(|keys|) == n + if waiting == [] then 0 else 1
  {
    assert paths[..|paths|] == paths;
  }

  /** A deletion under way: the requests made before it, the table it found, the keys it is to delete, how many
      batches were filled, and the requests it has made. */
  datatype Course = Course(start: seq<Request>, table: Table, keys: seq<string>, full: nat, sent: seq<Request>)

  class Deleter {
    const filesToDelete: seq<string>
    const fileListStorage: FileListStorage
    const databaseFilename: string
    const dryRun: bool

    /** Every request made so far. */
    var requests: seq<Request>

    constructor (filesToDelete: seq<string>, fileListStorage: FileListStorage, databaseFilename: string, dryRun: bool)
      ensures this.filesToDelete == filesToDelete && this.fileListStorage == fileListStorage
      ensures this.databaseFilename == databaseFilename && this.dryRun == dryRun && requests == []
    {
      this.filesToDelete, this.fileListStorage := filesToDelete, fileListStorage;
      this.databaseFilename, this.dryRun, requests := databaseFilename, dryRun, [];
    }

    /** The network decides. A status of 200 counts even if curl reports an error. */
    method PerformPostOnBucket(xml: string) returns (res: bool, statusCode: nat)
      modifies this`requests
      ensures requests == old(requests) + [Request(xml, statusCode)]
      ensures statusCode == 200 ==> res
    {
      var curlOk: bool, status: nat := *, *;
      statusCode := status;
      res := curlOk || status == 200;
      requests := requests + [Request(xml, statusCode)];
    }

    static method BuildBody(m: Markup, batch: array<string>, batchCount: nat) returns (xml: string)
      requires batchCount <= batch.Length && CStrings(batch[..batchCount])
      ensures xml == Body(m, batch[..batchCount])
    {
      xml := m.header;
      var i := 0;
      while i < batchCount
        invariant i <= batchCount && xml == m.header + Objects(m, batch[..i])
      {
        var behind: string := *;
        assert batch[i] in batch[..batchCount];
        var escapedPath := XmlEscape(batch[i], behind + "\0");
        assert batch[..i + 1][..i] == batch[..i];
        Assoc(m.header, Objects(m, batch[..i]), Object(m, batch[i]));
        xml := xml + (m.open + (escapedPath + m.close));
        i := i + 1;
      }
      Assoc(m.header, Objects(m, batch[..batchCount]), m.footer);
      xml := xml + m.footer;
    }

    method DeleteBatch(batch: array<string>, batchCount: nat) returns (res: bool, statusCode: nat)
      requires batchCount <= batch.Length && CStrings(batch[..batchCount])
      modifies this`requests
      ensures dryRun ==> res && statusCode == 200 && requests == old(requests)
      ensures !dryRun ==> requests == old(requests) + [Request(Body(DELETE, batch[..batchCount]), statusCode)]
      ensures statusCode == 200 ==> res
    {
      var xml := BuildBody(DELETE, batch, batchCount);
      if dryRun {
        res, statusCode := true, 200;
      } else {
        res, statusCode := PerformPostOnBucket(xml);
      }
    }

    /** One batch in performDeletion: request it, and forget its keys if it was accepted. */
    method SendBatch(batch: array<string>, batchCount: nat, ghost table: Table, ghost keys: seq<string>,
                     ghost sent: seq<Request>)
      returns (ok: bool, ghost answer: Request)
      requires 0 < batchCount <= batch.Length && CStrings(batch[..batchCount])
      requires fileListStorage.Valid() && !fileListStorage.inTransaction
      requires !dryRun ==>
                 Deleted(table, keys, sent, fileListStorage.files) && batch[..batchCount] == BatchAt(keys, |sent|)
      modifies this`requests, fileListStorage
      ensures fileListStorage.Valid() && !fileListStorage.inTransaction
      ensures dryRun ==> ok && requests == old(requests) && fileListStorage.files == old(fileListStorage.files)
      ensures !dryRun ==> requests == old(requests) + [answer]
      ensures !dryRun && !ok ==> DeletionOutcome(table, keys, sent + [answer], fileListStorage.files, false)
      ensures !dryRun && ok && batchCount == BATCH_SIZE ==> Deleted(table, keys, sent + [answer], fileListStorage.files)
      ensures !dryRun && ok && batchCount < BATCH_SIZE ==>
                DeletionOutcome(table, keys, sent + [answer], fileListStorage.files, true)
    {
      var res, statusCode := DeleteBatch(batch, batchCount);
      answer := Request(Body(DELETE, batch[..batchCount]), statusCode);
      ok := res && statusCode == 200;
      if ok && !dryRun {
        var stored := fileListStorage.StoreDeletedBatch(batch, batchCount);
      }
      if !dryRun {
        BatchAnswered(table, keys, sent, old(fileListStorage.files), answer, fileListStorage.files);
      }
    }

    /** What has been requested since the start of the deletion, and what the table is now. */
    ghost predicate SoFar(c: Course)
      reads this, fileListStorage
    {
      && c.keys == Deletable(filesToDelete, databaseFilename)
      && fileListStorage.Valid() && !fileListStorage.inTransaction && requests == c.start + c.sent
      && if dryRun then c.sent == [] && fileListStorage.files == c.table
         else |c.sent| == c.full && Deleted(c.table, c.keys, c.sent, fileListStorage.files)
    }

    /** The end of a deletion. */
    ghost predicate Ended(c: Course, ok: bool)
      reads this, fileListStorage
    {
      && fileListStorage.Valid() && !fileListStorage.inTransaction && requests == c.start + c.sent
      && if dryRun then ok && c.sent == [] && fileListStorage.files == c.table
         else DeletionOutcome(c.table, c.keys, c.sent, fileListStorage.files, ok)
    }

    /** SendBatch for a batch that is full. */
    method SendFullBatch(batch: array<string>, ghost c: Course) returns (ok: bool, ghost c': Course)
      requires batch.Length == BATCH_SIZE && CStrings(batch[..BATCH_SIZE]) && SoFar(c)
      requires (c.full + 1) * BATCH_SIZE <= |c.keys| && batch[..BATCH_SIZE] == BatchAt(c.keys, c.full)
      modifies this`requests, fileListStorage
      ensures c'.full == c.full + 1 && c' == c.(full := c'.full, sent := c'.sent)
      ensures if ok then SoFar(c') else Ended(c', false)
    {
      ghost var answer;
      ok, answer := SendBatch(batch, BATCH_SIZE, c.table, c.keys, c.sent);
      c' := c.(full := c.full + 1, sent := if dryRun then c.sent else c.sent + [answer]);
      assert c.start + c.sent + [answer] == c.start + (c.sent + [answer]);
    }

    /** One turn of the loop of performDeletion: the path goes into the batch, and a full batch is sent. */
    method TakePath(i: nat, batch: array<string>, batchCount: nat, ghost c: Course)
      returns (ok: bool, batchCount': nat, ghost c': Course)
      requires i < |filesToDelete| && CStrings(filesToDelete)
      requires batchCount < batch.Length == BATCH_SIZE && CStrings(batch[..batchCount])
      requires Scanned(filesToDelete, databaseFilename, i, c.full, batch[..batchCount]) && SoFar(c)
      modifies this`requests, fileListStorage, batch
      ensures c' == c.(full := c'.full, sent := c'.sent)
      ensures if ok then SoFar(c') else Ended(c', false)
      ensures ok ==>
                && batchCount' < BATCH_SIZE && CStrings(batch[..batchCount'])
                && Scanned(filesToDelete, databaseFilename, i + 1, c'.full, batch[..batchCount'])
    {
      var path := filesToDelete[i];
      OneMorePath(filesToDelete, databaseFilename, i, c.full, batch[..batchCount]);
      ok, batchCount', c' := true, batchCount, c;
      if path == databaseFilename + "-journal" || path == databaseFilename {
        return;
      }
      ghost var waiting := batch[..batchCount] + [path];
      batch[batchCount] := path;
      batchCount' := batchCount + 1;
      assert batch[..batchCount'] == waiting;
      if batchCount' >= BATCH_SIZE {
        BatchFilled(filesToDelete, databaseFilename, i + 1, c.full, waiting);
        ok, c' := SendFullBatch(batch, c);
        batchCount' := 0;
      }
    }

    method PerformDeletion() returns (ok: bool, ghost sent: seq<Request>)
      requires fileListStorage.Valid() && !fileListStorage.inTransaction && CStrings(filesToDelete)
      modifies this`requests, fileListStorage
      ensures fileListStorage.Valid() && !fileListStorage.inTransaction
      ensures requests == old(requests) + sent
      ensures dryRun ==> ok && sent == [] && fileListStorage.files == old(fileListStorage.files)
      ensures !dryRun ==>
                DeletionOutcome(old(fileListStorage.files), Deletable(filesToDelete, databaseFilename), sent,
                                fileListStorage.files, ok)
    {
      ghost var c := Course(requests, fileListStorage.files, Deletable(filesToDelete, databaseFilename), 0, []);
      var batch := new string[BATCH_SIZE](_ => "");
      var batchCount: nat := 0;
      var i := 0;
      while i < |filesToDelete|
        invariant 0 <= i <= |filesToDelete| && batchCount < BATCH_SIZE
        invariant c == Course(old(requests), old(fileListStorage.files), c.keys, c.full, c.sent) && SoFar(c)
        invariant CStrings(batch[..batchCount])
        invariant Scanned(filesToDelete, databaseFilename, i, c.full, batch[..batchCount])
      {
        ok, batchCount, c := TakePath(i, batch, batchCount, c);
        if !ok {
          return false, c.sent;
        }
        i := i + 1;
      }
      ok, c := SendLastBatch(batch, batchCount, c);
      sent := c.sent;
    }

    /** What performDeletion does after its loop. */
    method SendLastBatch(batch: array<string>, batchCount: nat, ghost c: Course) returns (ok: bool, ghost c': Course)
      requires batchCount < batch.Length == BATCH_SIZE && CStrings(batch[..batchCount]) && SoFar(c)
      requires Scanned(filesToDelete, databaseFilename, |filesToDelete|, c.full, batch[..batchCount])
      modifies this`requests, fileListStorage
      ensures c' == c.(sent := c'.sent) && Ended(c', ok)
    {
      AllScanned(filesToDelete, databaseFilename, c.full, batch[..batchCount]);
      ok, c' := true, c;
      if batchCount > 0 {
        ghost var answer;
        ok, answer := SendBatch(batch, batchCount, c.table, c.keys, c.sent);
        assert c.start + c.sent + [answer] == c.start + (c.sent + [answer]);
        c' := c.(sent := if dryRun then c.sent else c.sent + [answer]);
      } else if !dryRun {
        NothingWaiting(c.table, c.keys, c.sent, fileListStorage.files);
      }
    }
  }
}
