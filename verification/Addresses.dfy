/** What addresses mean, text by text. The functions that Destination parses with are not used in what is stated
    here, except for the result of the parse. */
module Addresses {
  import opened Destination
  import opened EndPoints
  import opened Wrappers

  /** The names of the endpoints, as the program lists them. */
  predicate IsEndPoint(name: string) {
    || name == "s3.amazonaws.com" || name == "s3-us-west-2.amazonaws.com" || name == "s3-us-west-1.amazonaws.com"
    || name == "s3-eu-west-1.amazonaws.com" || name == "s3-ap-southeast-1.amazonaws.com"
    || name == "s3-ap-northeast-1.amazonaws.com" || name == "s3-sa-east-1.amazonaws.com"
  }

  lemma EndPointAt(name: string) returns (i: nat)
    requires IsEndPoint(name)
    ensures i < |ENDPOINTS| && ENDPOINTS[i] == name
  {
    i := if name == ENDPOINTS[0] then 0 else if name == ENDPOINTS[1] then 1 else if name == ENDPOINTS[2] then 2
         else if name == ENDPOINTS[3] then 3 else if name == ENDPOINTS[4] then 4 else if name == ENDPOINTS[5] then 5
         else 6;
  }

  lemma AllEndPoints(i: nat)
    requires i < |ENDPOINTS|
    ensures IsEndPoint(ENDPOINTS[i])
  {
  }

  /** The name can be read at place k, character by character. */
  ghost predicate StandsAt(s: string, name: string, k: int) {
    0 <= k <= |s| - |name| && forall j :: 0 <= j < |name| ==> s[k + j] == name[j]
  }

  ghost predicate EndsIn(s: string, name: string) {
    StandsAt(s, name, |s| - |name|)
  }

  /** The name can be read somewhere in the text before its end. */
  ghost predicate OccursEarlier(s: string, name: string) {
    exists k :: k < |s| - |name| && StandsAt(s, name, k)
  }

  lemma SamePlaces(s: string, name: string, k: nat)
    ensures StandsAt(s, name, k) <==> OccursAt(s, name, k)
  {
    if OccursAt(s, name, k) {
      forall j | 0 <= j < |name| ensures s[k + j] == name[j] {
        assert s[k..k + |name|][j] == name[j];
      }
    }
  }

  // How a text is cut

  lemma SplitAt(host: string, rest: string)
    ensures "s3://" + host + "/" + rest == SCHEME + (host + "/" + rest)
  {
  }

  lemma SplitTwice(host: string, folder: string)
    ensures "s3://" + host + "/" + folder + "/" == "s3://" + host + "/" + (folder + "/")
  {
  }

  lemma ParsedAs(host: string, rest: string, folder: string)
    requires '/' !in host && '/' !in folder
    requires rest == folder + "/" || (rest == folder && (folder == "" || folder[|folder| - 1] != '/'))
    ensures Parsed(Some("s3://" + host + "/" + rest)) == Locate(ENDPOINTS, host, folder)
  {
    SplitAt(host, rest);
    PrintedCut(host, rest);
    if rest == folder + "/" {
      assert rest[..|rest| - 1] == folder;
    }
  }

  lemma ParsedBare(host: string)
    requires '/' !in host
    ensures Parsed(Some("s3://" + host)) == Locate(ENDPOINTS, host, "")
  {
    var text := "s3://" + host;
    assert text[5..] == host && OccursAt(text, SCHEME, 0);
  }

  // Folders

  /** The folder is what stands behind the first slash, whether a slash closes it or not; without any slash there is
      an empty folder. */
  lemma FolderIsRead(host: string, folder: string)
    requires '/' !in host && '/' !in folder
    ensures var l := Parsed(Some("s3://" + host + "/" + folder));
            && l.folder == Some(folder) && Parsed(Some("s3://" + host + "/" + folder + "/")) == l
            && (folder == "" ==> Parsed(Some("s3://" + host)) == l)
  {
    ParsedAs(host, folder, folder);
    ParsedAs(host, folder + "/", folder);
    SplitTwice(host, folder);
    ParsedBare(host);
    LocateRange(ENDPOINTS, host, folder);
  }

  /** A slash inside the folder leaves no bucket, and the destination is not valid. */
  lemma SlashInFolder(host: string, first: string, second: string)
    requires '/' !in host && second != ""
    ensures var l := Parsed(Some("s3://" + host + "/" + (first + "/" + second)));
            && l.bucket == None && l.endPoint == "s3.amazonaws.com" && !l.IsValid()
            && l.folder == Some(first + "/" + if second[|second| - 1] == '/' then second[..|second| - 1] else second)
  {
    var rest := first + "/" + second;
    SplitAt(host, rest);
    PrintedCut(host, rest);
    var cut := if second[|second| - 1] == '/' then second[..|second| - 1] else second;
    assert rest[|rest| - 1] == second[|second| - 1];
    assert rest[..|rest| - 1] == first + "/" + second[..|second| - 1];
    assert (first + "/" + cut)[|first|] == '/';
  }

  /** A text that does not begin with the scheme has neither bucket nor folder. */
  lemma NoAddress(text: Option<string>)
    requires text.Some? ==> !("s3://" <= text.value)
    ensures var l := Parsed(text); l.bucket == None && l.folder == None && !l.IsValid()
  {
  }

  // Hosts

  lemma MatchesAtEnd(host: string, name: string)
    requires name != ""
    ensures Matches(host, name) <==> EndsIn(host, name) && !OccursEarlier(host, name)
  {
    var r := Find(host, name);
    forall k: nat ensures StandsAt(host, name, k) <==> OccursAt(host, name, k) {
      SamePlaces(host, name, k);
    }
  }

  /** A host that does not end in an endpoint name is the bucket, at the first endpoint. */
  lemma OwnName(host: string, folder: string)
    requires '/' !in host && '/' !in folder
    requires forall name :: IsEndPoint(name) ==> !EndsIn(host, name)
    ensures var l := Parsed(Some("s3://" + host + "/" + folder));
            l == Location(Some(host), "s3.amazonaws.com", Some(folder)) && (l.IsValid() <==> host != "")
  {
    ParsedAs(host, folder, folder);
    forall i | 0 <= i < |ENDPOINTS|
      ensures !Matches(host, ENDPOINTS[i])
    {
      AllEndPoints(i);
      NamesBegin(i);
      MatchesAtEnd(host, ENDPOINTS[i]);
    }
    LocateNone(ENDPOINTS, host, folder);
  }

  /** No other endpoint can be meant. */
  lemma OnlyOwn(front: string, i: nat, folder: string)
    requires i < |ENDPOINTS|
    ensures var host := front + ENDPOINTS[i];
            Locate(ENDPOINTS, host, folder)
            == if Matches(host, ENDPOINTS[i]) then
                 Location(Some(BucketBefore(host, ENDPOINTS[i])), ENDPOINTS[i], Some(folder))
               else Location(Some(host), DEFAULT, Some(folder))
  {
    forall j | 0 <= j < |ENDPOINTS| && j != i
      ensures !Matches(front + ENDPOINTS[i], ENDPOINTS[j])
    {
      NamesDiffer(i, j);
      var k :| DifferAt(ENDPOINTS[i], ENDPOINTS[j], k);
      OtherEnding(front, ENDPOINTS[i], ENDPOINTS[j], k);
    }
    LocateOnly(ENDPOINTS, front + ENDPOINTS[i], folder, i);
  }

  /** An endpoint name behind some text matches unless it occurs earlier. */
  lemma BehindText(front: string, name: string)
    requires name != ""
    ensures var host := front + name;
            && (Matches(host, name) <==> !OccursEarlier(host, name))
            && (Matches(host, name) ==> BucketBefore(host, name) == if front == "" then name else front[..|front| - 1])
  {
    var host := front + name;
    MatchesAtEnd(host, name);
    assert EndsIn(host, name);
    if front != "" {
      assert host[..|front| - 1] == front[..|front| - 1];
    }
  }

  /** A host that ends in an endpoint name is at that endpoint, unless the name occurs in it before; the bucket is what
      comes before the character before the name, or the name itself if nothing comes before it. */
  lemma AtEndPoint(front: string, name: string, folder: string)
    requires IsEndPoint(name) && '/' !in front && '/' !in folder
    ensures var host := front + name;
            var l := Parsed(Some("s3://" + host + "/" + folder));
            if OccursEarlier(host, name) then l == Location(Some(host), "s3.amazonaws.com", Some(folder))
            else
              && l == Location(Some(if front == "" then name else front[..|front| - 1]), name, Some(folder))
              && (l.IsValid() <==> |front| != 1)
  {
    var i := EndPointAt(name);
    NamesBegin(i);
    ParsedAs(front + name, folder, folder);
    OnlyOwn(front, i, folder);
    BehindText(front, name);
  }

  /** The printed form: the folder and its slash are left out if there is none. */
  lemma PrintedText(bucket: string, endPoint: string, folder: string)
    ensures Printed(bucket, endPoint, "") == "s3://" + bucket + "." + endPoint + "/"
    ensures folder != "" ==> Printed(bucket, endPoint, folder) == "s3://" + bucket + "." + endPoint + "/" + folder + "/"
  {
    assert "s3://" + bucket + "." + endPoint + "/" + folder + "/"
           == "s3://" + bucket + "." + endPoint + "/" + (folder + "/");
  }

  /** One address. */
  lemma OneAddress()
    ensures Parsed(Some("s3://" + ("bucket." + "s3.amazonaws.com") + "/" + "backup"))
            == Location(Some("bucket"), "s3.amazonaws.com", Some("backup"))
  {
    AtEndPoint("bucket.", "s3.amazonaws.com", "backup");
    assert "bucket."[..6] == "bucket";
    NotEarlier();
  }

  lemma NotEarlier()
    ensures !OccursEarlier("bucket." + "s3.amazonaws.com", "s3.amazonaws.com")
  {
    var host, name := "bucket." + "s3.amazonaws.com", "s3.amazonaws.com";
    forall k: nat | k < 7
      ensures !StandsAt(host, name, k)
    {
      assert host[k + 0] == "bucket."[k] && name[0] == 's' && "bucket."[k] != 's';
    }
  }
}
