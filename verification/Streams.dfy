/** A stdio stream open for reading, as far as fread, feof and ferror let a caller see it. How much one read
    delivers is not determined: reads may be short, and they may fail. */
module Streams {
  import opened Words

  class InputStream {
    var rest: seq<byte>
    var eof: bool
    var error: bool

    /** The stream knows its end only once it has been reached. */
    ghost predicate Valid()
      reads this
    {
      eof ==> rest == []
    }

    constructor (content: seq<byte>)
      ensures Valid() && rest == content && !error
    {
      rest, eof, error := content, false, false;
    }

    /** fread: a read that delivers less than was asked for has met the end of the file or an error. */
    method Read(want: nat) returns (chunk: seq<byte>)
      requires Valid()
      modifies this
      ensures Valid()
      ensures |chunk| <= want && old(rest) == chunk + rest
      ensures |chunk| < want ==> eof || error
      ensures old(error) ==> error
    {
      var n: int := *;
      if n < 0 || n > want || n > |rest| {
        n := if want < |rest| then want else |rest|;
      }
      chunk, rest := rest[..n], rest[n..];
      if n < want {
        if rest == [] {
          eof := true;
        } else {
          error := true;
        }
      }
      if * {
        error := true;
      }
    }
  }
}
