/** What a deletion asks for and forgets, in plain terms: the database by its names, the batches by their numbers, and
    a request in full. */
module DeletionPlainly {
  import opened Deleter
  import opened Storage
  import opened Synchronise
  import opened UploadRun
  import opened Xml
  import opened XmlText

  /** However a deletion ends, the database and its journal keep their rows, and no request names them if the keys of
      the list come through XML unchanged. */
  lemma DatabaseSpared(table: Table, paths: seq<string>, databaseFilename: string, sent: seq<Request>, files: Table,
                       ok: bool, name: string)
    requires DeletionOutcome(table, Deletable(paths, databaseFilename), sent, files, ok)
    requires name == databaseFilename || name == databaseFilename + "-journal"
    ensures (name in files <==> name in table) && (name in table ==> files[name] == table[name])
    ensures (forall i :: 0 <= i < |paths| ==> Plain(paths[i])) ==> !Named(sent, name)
  {
    var keys := Deletable(paths, databaseFilename);
    DeletableMeans(paths, databaseFilename, name);
    RowsAfter(table, keys, sent, files, ok, name);
    if (forall i :: 0 <= i < |paths| ==> Plain(paths[i])) && Named(sent, name) {
      NamedExactly(table, keys, sent, files, ok, name);
      DeletablePlain(paths, databaseFilename);
      NamesOnlyKeys(keys, name);
    }
  }

  lemma DeletablePlain(paths: seq<string>, databaseFilename: string)
    requires forall i :: 0 <= i < |paths| ==> Plain(paths[i])
    ensures AllPlain(Deletable(paths, databaseFilename))
  {
    var keys := Deletable(paths, databaseFilename);
    forall i | 0 <= i < |keys|
      ensures Plain(keys[i])
    {
      DeletableMeans(paths, databaseFilename, keys[i]);
      assert keys[i] in keys;
    }
  }

  /** The rows that are gone are those of the keys whose requests were accepted: all keys, or those of the batches of
      999 before the last request. */
  lemma RowsAfter(table: Table, keys: seq<string>, sent: seq<Request>, files: Table, ok: bool, key: string)
    requires DeletionOutcome(table, keys, sent, files, ok)
    ensures !ok ==> 0 < |sent| && 999 * (|sent| - 1) <= |keys|
    ensures var n := if ok then |keys| else 999 * (|sent| - 1);
            && (key in files <==> key in table && !(exists i :: 0 <= i < n && keys[i] == key))
            && (key in files ==> files[key] == table[key])
  {
    var n := if ok then |keys| else 999 * (|sent| - 1);
    assert files == Without(table, keys[..n]);
    assert key in keys[..n] <==> exists i :: 0 <= i < n && keys[i] == key;
  }

  /** Request k carries the keys from 999k on, 999 of them as long as there are so many, and is the last one exactly if
      it was refused or no keys are left. */
  lemma RequestsInOrder(table: Table, keys: seq<string>, sent: seq<Request>, files: Table, ok: bool, k: nat)
    requires DeletionOutcome(table, keys, sent, files, ok)
    ensures ok ==> 999 * |sent| >= |keys|
    ensures k < |sent| ==>
              && 999 * k < |keys|
              && sent[k].body == Body(DELETE, keys[999 * k..if 999 * k + 999 <= |keys| then 999 * k + 999 else |keys|])
              && (sent[k].status != 200 <==> !ok && k == |sent| - 1)
  {
    if k < |sent| {
      BodiesOf(table, keys, sent, files, ok, k);
      BatchInRange(|keys|, k);
      if !ok && k < |sent| - 1 {
        assert sent[..|sent| - 1][k] == sent[k];
      }
    }
  }

  /** A request with two keys. */
  lemma TwoKeys()
    ensures Body(DELETE, ["a&b", "<c>"])
            == "<?xml version=\"1.0\" encoding=\"UTF-8\"?>\n" + "<Delete>\n" + "<Quiet>true</Quiet>\n"
               + ("\t<Object><Key>" + ("a&amp;b" + "</Key></Object>\n"))
               + ("\t<Object><Key>" + ("&lt;c&gt;" + "</Key></Object>\n"))
               + "</Delete>\n"
  {
    EscapedTexts();
    var keys := ["a&b", "<c>"];
    assert keys[..1] == ["a&b"] && ["a&b"][..0] == [];
    assert Objects(DELETE, []) == "";
    assert Objects(DELETE, ["a&b"]) == "" + Xml.Object(DELETE, "a&b") == Xml.Object(DELETE, "a&b");
    assert Objects(DELETE, keys) == Xml.Object(DELETE, "a&b") + Xml.Object(DELETE, "<c>");
    Assoc(DELETE.header, Xml.Object(DELETE, "a&b"), Xml.Object(DELETE, "<c>"));
    Assoc(DELETE.header, Objects(DELETE, keys), DELETE.footer);
  }

  lemma EscapedTexts()
    ensures Escaped("a&b") == "a&amp;b" && Escaped("<c>") == "&lt;c&gt;"
  {
    assert "a&b"[1..] == "&b" && "&b"[1..] == "b" && "b"[1..] == "";
    assert "<c>"[1..] == "c>" && "c>"[1..] == ">" && ">"[1..] == "";
    assert Escaped("b") == "b" && Escaped("&b") == "&amp;" + "b" == "&amp;b";
    assert Escaped(">") == "&gt;" && Escaped("c>") == "c" + "&gt;" == "c&gt;";
  }

  /** Line ends as a reader finds them. */
  lemma LineEnds()
    ensures Normalised("a\r\nb\rc") == "a\nb\nc"
  {
    assert "a\r\nb\rc"[1..] == "\r\nb\rc" && "\r\nb\rc"[2..] == "b\rc" && "b\rc"[1..] == "\rc" && "\rc"[1..] == "c";
    assert Normalised("c") == "c" && Normalised("\rc") == "\nc" && Normalised("b\rc") == "b\nc";
  }

  /** After listing the files under their paths, exactly the keys of the table are deleted that are no file's path and
      do not name the database or its journal. */
  lemma ListedPlainly(c: Config, table: Table, databaseFilename: string, list: seq<string>, key: string)
    requires ToDelete(table, LocalPaths(c), list)
    ensures key in Deletable(list, databaseFilename)
            <==> key in table && (forall i :: 0 <= i < |c.files| ==> c.files[i].path != key)
                 && key != databaseFilename && key != databaseFilename + "-journal"
  {
    DeletableMeans(list, databaseFilename, key);
    var paths := LocalPaths(c);
    if i :| 0 <= i < |c.files| && c.files[i].path == key {
      assert paths[i][1..] == key;
    }
    if IsLocal(paths, key) {
      var i :| 0 <= i < |paths| && |paths[i]| > 0 && paths[i][1..] == key;
      assert c.files[i].path == key;
    }
  }
}
