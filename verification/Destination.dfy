/** Destinations of the form s3://bucket.endpoint/folder/, as src/destination.cc parses and prints them. */
module Destination {
  import opened Wrappers
  import opened EndPoints

  const DEFAULT: string := "s3.amazonaws.com"
  const SCHEME: string := "s3://"

  predicate OccursAt(s: string, p: string, k: nat) {
    k + |p| <= |s| && s[k..k + |p|] == p
  }

  ghost predicate Contains(s: string, p: string) {
    exists k: nat :: OccursAt(s, p, k)
  }

  /** strstr: the first occurrence at or behind a position, or -1. */
  function FindFrom(s: string, p: string, from: nat): (r: int)
    ensures r >= 0 ==> from <= r && OccursAt(s, p, r)
    ensures forall k: nat :: from <= k && (r < 0 || k < r) ==> !OccursAt(s, p, k)
    decreases |s| - from
  {
    if from + |p| > |s| then -1
    else if OccursAt(s, p, from) then from
    else if from == |s| then -1
    else FindFrom(s, p, from + 1)
  }

  function Find(s: string, p: string): (r: int)
    ensures r >= 0 ==> OccursAt(s, p, r)
    ensures forall k: nat :: r < 0 || k < r ==> !OccursAt(s, p, k)
  {
    FindFrom(s, p, 0)
  }

  /** strchr. */
  function FindChar(s: string, c: char): (r: int)
    ensures r >= 0 ==> r < |s| && s[r] == c && c !in s[..r]
    ensures r < 0 ==> c !in s
  {
    if s == "" then -1
    else if s[0] == c then 0
    else
      var r := FindChar(s[1..], c);
      if r < 0 then -1 else r + 1
  }

  /** The three fields of a Destination; NULL is None. */
  datatype Location = Location(bucket: Option<string>, endPoint: string, folder: Option<string>) {
    predicate IsValid() {
      bucket.Some? && |bucket.value| > 0 && folder.Some?
    }
  }

  /** What comes before the first slash, and the folder behind it without its closing slash. */
  function HostPart(path: string): string {
    var slash := FindChar(path, '/');
    if slash >= 0 then path[..slash] else path
  }

  function FolderPart(path: string): string {
    var slash := FindChar(path, '/');
    if slash < 0 then ""
    else
      var folder := path[slash + 1..];
      if |folder| > 0 && folder[|folder| - 1] == '/' then folder[..|folder| - 1] else folder
  }

  /** The first occurrence of the endpoint name is at the very end of the host. */
  predicate Matches(host: string, endPoint: string) {
    var r := Find(host, endPoint);
    r >= 0 && r + |endPoint| == |host|
  }

  /** The character before the endpoint name, whatever it is, ends the bucket name. */
  function BucketBefore(host: string, endPoint: string): string
    requires Matches(host, endPoint)
  {
    var r := Find(host, endPoint);
    if r > 0 then host[..r - 1] else host
  }

  function Locate(names: seq<string>, host: string, folder: string): Location {
    if names == [] then Location(Some(host), DEFAULT, Some(folder))
    else if Matches(host, names[0]) then Location(Some(BucketBefore(host, names[0])), names[0], Some(folder))
    else Locate(names[1..], host, folder)
  }

  function Parsed(destination: Option<string>): Location {
    if destination.None? || Find(destination.value, SCHEME) != 0 then Location(None, DEFAULT, None)
    else
      var path := destination.value[5..];
      var folder := FolderPart(path);
      if FindChar(folder, '/') >= 0 then Location(None, DEFAULT, Some(folder))
      else Locate(ENDPOINTS, HostPart(path), folder)
  }

  function Printed(bucket: string, endPoint: string, folder: string): string {
    SCHEME + bucket + "." + endPoint + "/" + (if folder == "" then "" else folder + "/")
  }

  class Destination {
    var bucket: Option<string>
    var endPoint: string
    var folder: Option<string>

    ghost function Value(): Location
      reads this
    {
      Location(bucket, endPoint, folder)
    }

    constructor (destination: Option<string>)
      ensures Value() == Parsed(destination)
    {
      bucket, endPoint, folder := None, "s3.amazonaws.com", None;
      new;
      Parse(destination);
    }

    method Parse(destination: Option<string>)
      requires bucket == None && endPoint == DEFAULT && folder == None
      modifies this
      ensures Value() == Parsed(destination)
    {
      if destination.None? {
        return;
      }
      if Find(destination.value, SCHEME) != 0 {
        return;
      }
      var path := destination.value[5..];
      var slash := FindChar(path, '/');
      var rest := "";
      if slash >= 0 {
        rest := path[slash + 1..];
        path := path[..slash];
        var len := |rest|;
        if len > 0 && rest[len - 1] == '/' {
          rest := rest[..len - 1];
        }
      }
      folder := Some(rest);
      if FindChar(rest, '/') >= 0 {
        return;
      }
      MatchEndPoint(ENDPOINTS, path, rest);
    }

    /** The loop of parse over the table of endpoint names, and the bucket name if none of them matched. */
    method MatchEndPoint(names: seq<string>, path: string, ghost rest: string)
      requires bucket == None && endPoint == DEFAULT && folder == Some(rest)
      modifies this
      ensures Value() == Locate(names, path, rest)
    {
      var i := 0;
      assert names[0..] == names;
      while i < |names|
        invariant 0 <= i <= |names|
        invariant bucket == None && endPoint == DEFAULT && folder == Some(rest)
        invariant Locate(names, path, rest) == Locate(names[i..], path, rest)
      {
        var e := names[i];
        var r := Find(path, e);
        if r >= 0 {
          if r + |e| == |path| {
            endPoint := e;
            bucket := Some(if r > 0 then path[..r - 1] else path);
            break;
          }
        }
        assert names[i..][1..] == names[i + 1..];
        i := i + 1;
      }
      if bucket == None {
        bucket := Some(path);
      }
    }

    method IsValid() returns (valid: bool)
      ensures valid == Value().IsValid()
    {
      valid := bucket.Some? && |bucket.value| > 0 && folder.Some?;
    }

    method AbsoluteString() returns (result: string)
      requires bucket.Some?
      ensures result == Printed(bucket.value, endPoint, if folder.Some? then folder.value else "")
    {
      result := "s3://";
      result := result + bucket.value;
      result := result + ".";
      result := result + endPoint;
      result := result + "/";
      if folder.Some? && folder.value != "" {
        result := result + folder.value;
        result := result + "/";
      }
    }
  }

  lemma FindCharBehind(a: string, c: char, b: string)
    requires c !in a
    ensures FindChar(a + [c] + b, c) == |a|
  {
    var s := a + [c] + b;
    assert forall k :: 0 <= k < |a| ==> s[k] == a[k];
    forall n | |a| < n <= |s|
      ensures c in s[..n]
    {
      assert s[..n][|a|] == c;
    }
  }

  lemma DiffersInside(s: string, p: string, k: nat, j: nat)
    requires j < |p| && (k + j < |s| ==> s[k + j] != p[j])
    ensures !OccursAt(s, p, k)
  {
  }

  /** The host names the endpoint again exactly if the bucket name does not contain the endpoint name. */
  lemma HostMatches(bucket: string, i: nat)
    requires i < |ENDPOINTS|
    ensures Matches(bucket + "." + ENDPOINTS[i], ENDPOINTS[i]) <==> !Contains(bucket, ENDPOINTS[i])
    ensures !Contains(bucket, ENDPOINTS[i]) ==> BucketBefore(bucket + "." + ENDPOINTS[i], ENDPOINTS[i]) == bucket
  {
    var e := ENDPOINTS[i];
    var host := bucket + "." + e;
    NamesBegin(i);
    HostFacts(bucket, e);
    if Contains(bucket, e) {
      var k: nat :| OccursAt(bucket, e, k);
      assert host[k..k + |e|] == bucket[k..k + |e|];
      assert OccursAt(host, e, k);
    } else {
      forall k: nat | k <= |bucket|
        ensures !OccursAt(host, e, k)
      {
        if k + |e| <= |bucket| {
          assert host[k..k + |e|] == bucket[k..k + |e|];
          assert !OccursAt(bucket, e, k);
        } else {
          NoStraddle(bucket, i, k);
        }
      }
    }
  }

  lemma HostFacts(bucket: string, e: string)
    ensures var host := bucket + "." + e;
            |host| == |bucket| + 1 + |e| && host[..|bucket|] == bucket && OccursAt(host, e, |bucket| + 1)
  {
  }

  /** An endpoint name cannot begin in the bucket name and end behind the dot that follows it. */
  lemma NoStraddle(bucket: string, i: nat, r: nat)
    requires i < |ENDPOINTS| && r <= |bucket| < r + |ENDPOINTS[i]|
    ensures !OccursAt(bucket + "." + ENDPOINTS[i], ENDPOINTS[i], r)
  {
    var e := ENDPOINTS[i];
    var host := bucket + "." + e;
    NamesBegin(i);
    var q := |bucket| - r;
    if e[q] != '.' {
      DiffersInside(host, e, r, q);
    } else {
      BehindDots(i, q);
      DiffersInside(host, e, r, q + 1);
    }
  }

  /** No other endpoint name is found at the end of the host. */
  lemma OthersDoNotMatch(bucket: string, i: nat, j: nat)
    requires i < |ENDPOINTS| && j < |ENDPOINTS| && i != j
    ensures !Matches(bucket + "." + ENDPOINTS[i], ENDPOINTS[j])
  {
    NamesDiffer(i, j);
    var k :| DifferAt(ENDPOINTS[i], ENDPOINTS[j], k);
    OtherEnding(bucket + ".", ENDPOINTS[i], ENDPOINTS[j], k);
  }

  lemma OtherEnding(front: string, e: string, f: string, k: nat)
    requires DifferAt(e, f, k)
    ensures !Matches(front + e, f)
  {
  }

  /** If at most one name matches, the order of the table does not matter. */
  lemma {:induction false} LocateOnly(names: seq<string>, host: string, folder: string, i: nat)
    requires i < |names|
    requires forall j :: 0 <= j < |names| && j != i ==> !Matches(host, names[j])
    ensures Locate(names, host, folder)
            == if Matches(host, names[i]) then Location(Some(BucketBefore(host, names[i])), names[i], Some(folder))
               else Location(Some(host), DEFAULT, Some(folder))
  {
    if i == 0 {
      if !Matches(host, names[0]) {
        LocateNone(names, host, folder);
      }
    } else {
      assert !Matches(host, names[0]);
      LocateOnly(names[1..], host, folder, i - 1);
    }
  }

  lemma {:induction false} LocateNone(names: seq<string>, host: string, folder: string)
    requires forall j :: 0 <= j < |names| ==> !Matches(host, names[j])
    ensures Locate(names, host, folder) == Location(Some(host), DEFAULT, Some(folder))
  {
    if names != [] {
      assert !Matches(host, names[0]);
      LocateNone(names[1..], host, folder);
    }
  }

  /** What parse cuts the printed form into. */
  lemma PrintedParts(bucket: string, i: nat, folder: string)
    requires i < |ENDPOINTS| && '/' !in bucket && '/' !in folder
    ensures var d := Printed(bucket, ENDPOINTS[i], folder);
            && Find(d, SCHEME) == 0
            && HostPart(d[5..]) == bucket + "." + ENDPOINTS[i] && FolderPart(d[5..]) == folder
  {
    NamesBegin(i);
    var rest := if folder == "" then "" else folder + "/";
    Grouped(bucket, ENDPOINTS[i], rest);
    PrintedCut(bucket + "." + ENDPOINTS[i], rest);
    if folder != "" {
      assert rest[..|rest| - 1] == folder;
    }
  }

  lemma Grouped(bucket: string, endPoint: string, rest: string)
    ensures SCHEME + bucket + "." + endPoint + "/" + rest == SCHEME + (bucket + "." + endPoint + "/" + rest)
  {
  }

  lemma PrintedCut(host: string, rest: string)
    requires '/' !in host
    ensures var d := SCHEME + (host + "/" + rest);
            && Find(d, SCHEME) == 0
            && d[5..] == host + "/" + rest
            && FindChar(d[5..], '/') == |host| && d[5..][..|host|] == host && d[5..][|host| + 1..] == rest
  {
    var d := SCHEME + (host + "/" + rest);
    assert OccursAt(d, SCHEME, 0);
    FindCharBehind(host, '/', rest);
  }

  /** Printing a destination and parsing what was printed gives it back exactly if the bucket name does not
      contain the name of its own endpoint. */
  lemma RoundTrip(bucket: string, endPoint: string, folder: string)
    requires bucket != "" && '/' !in bucket && '/' !in folder && endPoint in ENDPOINTS
    ensures Parsed(Some(Printed(bucket, endPoint, folder))) == Location(Some(bucket), endPoint, Some(folder))
            <==> !Contains(bucket, endPoint)
  {
    var i: nat :| i < |ENDPOINTS| && ENDPOINTS[i] == endPoint;
    var host := bucket + "." + endPoint;
    PrintedParts(bucket, i, folder);
    HostMatches(bucket, i);
    forall j | 0 <= j < |ENDPOINTS| && j != i
      ensures !Matches(host, ENDPOINTS[j])
    {
      OthersDoNotMatch(bucket, i, j);
    }
    LocateOnly(ENDPOINTS, host, folder, i);
  }

  lemma {:induction false} LocateRange(names: seq<string>, host: string, folder: string)
    requires '/' !in host
    ensures var l := Locate(names, host, folder);
            && l.bucket.Some? && '/' !in l.bucket.value && l.folder == Some(folder)
            && (l.endPoint in names || l.endPoint == DEFAULT)
  {
    if names != [] && !Matches(host, names[0]) {
      LocateRange(names[1..], host, folder);
    }
  }

  /** Whatever was parsed into a valid destination, printing and parsing it once more changes nothing, unless
      the bucket name contains the endpoint name. */
  lemma Reparse(destination: Option<string>)
    requires Parsed(destination).IsValid()
    ensures var l := Parsed(destination);
            Parsed(Some(Printed(l.bucket.value, l.endPoint, l.folder.value))) == l
            <==> !Contains(l.bucket.value, l.endPoint)
  {
    var l := Parsed(destination);
    var path := destination.value[5..];
    LocateRange(ENDPOINTS, HostPart(path), FolderPart(path));
    assert ENDPOINTS[0] == DEFAULT;
    RoundTrip(l.bucket.value, l.endPoint, l.folder.value);
  }
}
