/** What a reader of XML 1.0 does before it looks at markup: it refuses characters outside Char (section 2.2), and
    it reads every line end as a line feed (section 2.11). */
module XmlText {
  /** The production Char. Surrogates are no characters here in the first place. */
  predicate Legal(c: char) {
    c == '\t' || c == '\n' || c == '\r' || (0x20 <= c as int && c as int != 0xfffe && c as int != 0xffff)
  }

  predicate AllLegal(s: string) {
    forall c :: c in s ==> Legal(c)
  }

  /** A text that a reader finds as it was written. */
  predicate Plain(s: string) {
    forall i :: 0 <= i < |s| ==> Legal(s[i]) && s[i] != '\r'
  }

  lemma PlainMeans(s: string)
    ensures Plain(s) <==> AllLegal(s) && '\r' !in s
  {
  }

  /** A carriage return, with a line feed behind it or alone, becomes a line feed. */
  function Normalised(s: string): string
    decreases |s|
  {
    if s == "" then ""
    else if s[0] != '\r' then [s[0]] + Normalised(s[1..])
    else "\n" + Normalised(if |s| > 1 && s[1] == '\n' then s[2..] else s[1..])
  }

  lemma {:induction false} NoReturnLeft(s: string)
    ensures '\r' !in Normalised(s)
    decreases |s|
  {
    if s != "" {
      NoReturnLeft(if s[0] == '\r' && |s| > 1 && s[1] == '\n' then s[2..] else s[1..]);
    }
  }

  lemma {:induction false} NothingToDo(s: string)
    requires '\r' !in s
    ensures Normalised(s) == s
  {
    if s != "" {
      NothingToDo(s[1..]);
    }
  }

  /** Texts without a carriage return, and only they, are read as they stand. */
  lemma UnchangedExactly(s: string)
    ensures Normalised(s) == s <==> '\r' !in s
  {
    NoReturnLeft(s);
    if '\r' !in s {
      NothingToDo(s);
    }
  }

  lemma PlainFirst(c: char, r: string)
    requires c != '\r'
    ensures Normalised([c] + r) == [c] + Normalised(r)
  {
    assert ([c] + r)[1..] == r;
  }

  lemma LineEnd(feed: string, tail: string)
    requires feed == ['\n'] || (feed == [] && (tail == "" || tail[0] != '\n'))
    ensures Normalised("\r" + (feed + tail)) == "\n" + Normalised(tail)
  {
    var s := "\r" + (feed + tail);
    assert s[1 + |feed|..] == tail;
    if feed == [] && tail != "" {
      assert s[1] == tail[0];
    }
  }

  /** No line end lies across the place where two texts meet. */
  ghost predicate Apart(a: string, b: string) {
    a == "" || b == "" || a[|a| - 1] != '\r' || b[0] != '\n'
  }

  lemma {:induction false} NormalisedConcat(a: string, b: string)
    requires Apart(a, b)
    ensures Normalised(a + b) == Normalised(a) + Normalised(b)
    decreases |a|
  {
    if a == "" {
      assert a + b == b;
    } else if a[0] != '\r' {
      NormalisedConcat(a[1..], b);
      PlainStep(a[0], a[1..], b);
      assert a == [a[0]] + a[1..];
    } else if |a| > 1 && a[1] == '\n' {
      NormalisedConcat(a[2..], b);
      LineEndStep(['\n'], a[2..], b);
      assert a == "\r" + (['\n'] + a[2..]);
    } else {
      NormalisedConcat(a[1..], b);
      LineEndStep([], a[1..], b);
      assert a == "\r" + ([] + a[1..]);
    }
  }

  lemma PlainStep(c: char, tail: string, b: string)
    requires c != '\r' && Normalised(tail + b) == Normalised(tail) + Normalised(b)
    ensures Normalised([c] + tail + b) == Normalised([c] + tail) + Normalised(b)
  {
    PlainFirst(c, tail);
    PlainFirst(c, tail + b);
    assert [c] + tail + b == [c] + (tail + b);
  }

  lemma LineEndStep(feed: string, tail: string, b: string)
    requires feed == ['\n'] || (feed == [] && (tail + b == "" || (tail + b)[0] != '\n'))
    requires Normalised(tail + b) == Normalised(tail) + Normalised(b)
    ensures Normalised("\r" + (feed + tail) + b) == Normalised("\r" + (feed + tail)) + Normalised(b)
  {
    assert tail != "" ==> (tail + b)[0] == tail[0];
    LineEnd(feed, tail);
    LineEnd(feed, tail + b);
    assert "\r" + (feed + tail) + b == "\r" + (feed + (tail + b));
  }

  /** A line end that is changed shows in the result. */
  lemma {:induction false} FeedShows(s: string)
    requires '\n' !in Normalised(s)
    ensures Normalised(s) == s
  {
    if s != "" {
      assert s[0] != '\r' by {
        assert Normalised(s)[0] in Normalised(s);
      }
      FeedShows(s[1..]);
    }
  }
}
