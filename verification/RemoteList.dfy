/** The growing list of src/remoteListOfFiles.cc. */
module RemoteList {
  datatype Entry = Entry(path: string, md5: string, mtime: nat)

  const STEP: nat := 100

  class RemoteListOfFiles {
    var paths: array<string>
    var md5s: array<string>
    var mtimes: array<nat>
    var count: nat
    var allocCount: nat

    ghost predicate Valid()
      reads this
    {
      && count < allocCount == paths.Length == md5s.Length == mtimes.Length
      && paths != md5s
    }

    ghost function Entries(): (s: seq<Entry>)
      requires Valid()
      reads this, paths, md5s, mtimes
    {
      seq(count, i requires 0 <= i < count && Valid() reads this, paths, md5s, mtimes =>
            Entry(paths[i], md5s[i], mtimes[i]))
    }

    constructor ()
      ensures Valid() && count == 0 && fresh(paths) && fresh(md5s) && fresh(mtimes)
    {
      paths := new string[STEP](_ => "");
      md5s := new string[STEP](_ => "");
      mtimes := new nat[STEP];
      count := 0;
      allocCount := STEP;
    }

    /** There is always room for one more. What mtimes says of the new element is left to resolveMtimes. */
    method Add(path: string, md5: string)
      requires Valid()
      modifies this, paths, md5s
      ensures Valid() && (fresh(paths) || paths == old(paths)) && (fresh(md5s) || md5s == old(md5s))
      ensures fresh(mtimes) || mtimes == old(mtimes)
      ensures count == old(count) + 1 && allocCount <= old(allocCount) + STEP
      ensures paths[..count] == old(paths[..count]) + [path] && md5s[..count] == old(md5s[..count]) + [md5]
      ensures mtimes[..count - 1] == old(mtimes[..count])
    {
      paths[count] := path;
      md5s[count] := md5;
      count := count + 1;
      if count >= allocCount {
        md5s := Grown(md5s, count, "");
        paths := Grown(paths, count, "");
        mtimes := Grown(mtimes, count, 0);
        allocCount := allocCount + STEP;
      }
    }
  }

  /** realloc. */
  method Grown<T(0)>(a: array<T>, used: nat, filler: T) returns (b: array<T>)
    requires used <= a.Length
    ensures fresh(b) && b.Length == a.Length + STEP && b[..used] == a[..used]
  {
    b := new T[a.Length + STEP](_ => filler);
    var i := 0;
    while i < used
      invariant i <= used
      invariant b[..i] == a[..i]
    {
      b[i] := a[i];
      i := i + 1;
    }
  }
}
