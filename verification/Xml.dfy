/** The XML of a multi-object delete request, src/deleter.cc. */
module Xml {
  import opened Strings
  import opened Wrappers
  import opened XmlText

  function EscapedChar(c: char): string {
    if c == '<' then "&lt;" else if c == '>' then "&gt;" else if c == '&' then "&amp;" else [c]
  }

  function Escaped(s: string): string {
    if s == "" then "" else EscapedChar(s[0]) + Escaped(s[1..])
  }

  /** xmlEscape, on a string and the memory behind its terminating zero. The loop copies a character before it
      looks for the end, so for the empty string it runs on behind the zero; what it copies there is cut off again
      with the zero it copied first. */
  method XmlEscape(src: string, behind: string) returns (result: string)
    requires '\0' !in src && (src == "" ==> '\0' in behind)
    ensures result == Escaped(src)
  {
    var memory, newString, p := src + "\0" + behind, "", 0;
    ghost var end: nat := |src|;
    if src == "" {
      end :| 1 <= end < |memory| && memory[end] == '\0' by {
        var k :| 0 <= k < |behind| && behind[k] == '\0';
        assert memory[k + 1] == '\0';
      }
    }
    assert src[0..] == src;
    while true
      invariant 0 <= p < end < |memory| && memory[end] == '\0'
      invariant src != "" ==> end == |src| && newString + Escaped(src[p..]) == Escaped(src)
      invariant src == "" ==> if p == 0 then newString == "" else newString != "" && newString[0] == '\0'
      decreases end - p
    {
      var e: string;
      if memory[p] == '<' {
        e := "&lt;";
      } else if memory[p] == '>' {
        e := "&gt;";
      } else if memory[p] == '&' {
        e := "&amp;";
      } else {
        e := [memory[p]];
      }
      if src != "" {
        EscapeStep(newString, e, src, p);
      }
      newString := newString + e;
      p := p + 1;
      if memory[p] == '\0' {
        break;
      }
    }
    NoZero(src);
    result := CString(newString);
    assert src == "" ==> result == "";
  }

  lemma EscapeStep(result: string, e: string, src: string, p: nat)
    requires p < |src| && e == EscapedChar(src[p])
    ensures result + e + Escaped(src[p + 1..]) == result + Escaped(src[p..])
    ensures p + 1 == |src| ==> result + e == result + Escaped(src[p..])
  {
    assert src[p..][1..] == src[p + 1..];
  }

  lemma {:induction false} NoZero(s: string)
    requires '\0' !in s
    ensures '\0' !in Escaped(s)
  {
    if s != "" {
      NoZero(s[1..]);
    }
  }

  /** What a reader of XML makes of character data, after line ends are normalised: the three references it may
      hold, and no markup. */
  function Unescaped(s: string): Option<string>
    decreases |s|
  {
    if s == "" then Some("")
    else if s[0] == '<' || s[0] == '>' then None
    else if s[0] != '&' then Before(s[0], Unescaped(s[1..]))
    else if |s| >= 4 && s[1] == 'l' && s[2] == 't' && s[3] == ';' then Before('<', Unescaped(s[4..]))
    else if |s| >= 4 && s[1] == 'g' && s[2] == 't' && s[3] == ';' then Before('>', Unescaped(s[4..]))
    else if |s| >= 5 && s[1] == 'a' && s[2] == 'm' && s[3] == 'p' && s[4] == ';' then Before('&', Unescaped(s[5..]))
    else None
  }

  function Before(c: char, rest: Option<string>): Option<string> {
    if rest.Some? then Some([c] + rest.value) else None
  }

  lemma {:induction false} EscapeRoundTrip(s: string)
    ensures Unescaped(Escaped(s)) == Some(s)
    ensures forall i :: 0 <= i < |Escaped(s)| ==> Escaped(s)[i] != '<'
  {
    if s != "" {
      EscapeRoundTrip(s[1..]);
      UnescapeOne(s[0], Escaped(s[1..]));
      assert [s[0]] + s[1..] == s;
    }
  }

  /** Escaping and line ends do not get into each other's way: a reader finds the key with its line ends normalised. */
  lemma {:induction false} NormalisedEscaped(s: string)
    ensures Normalised(Escaped(s)) == Escaped(Normalised(s))
    decreases |s|
  {
    if s == "" {
    } else if s[0] != '\r' {
      NormalisedEscaped(s[1..]);
      OrdinaryFirst(s[0], s[1..]);
      assert s == [s[0]] + s[1..];
    } else if |s| > 1 && s[1] == '\n' {
      NormalisedEscaped(s[2..]);
      LineEndFirst(['\n'], s[2..]);
      assert s == "\r" + (['\n'] + s[2..]);
    } else {
      NormalisedEscaped(s[1..]);
      LineEndFirst([], s[1..]);
      assert s == "\r" + ([] + s[1..]);
    }
  }

  lemma OrdinaryFirst(c: char, tail: string)
    requires c != '\r' && Normalised(Escaped(tail)) == Escaped(Normalised(tail))
    ensures Normalised(Escaped([c] + tail)) == Escaped(Normalised([c] + tail))
  {
    Prepended(c, tail);
    UnchangedExactly(EscapedChar(c));
    NormalisedConcat(EscapedChar(c), Escaped(tail));
    PlainFirst(c, tail);
    Prepended(c, Normalised(tail));
  }

  lemma LineEndFirst(feed: string, tail: string)
    requires feed == ['\n'] || (feed == [] && (tail == "" || tail[0] != '\n'))
    requires Normalised(Escaped(tail)) == Escaped(Normalised(tail))
    ensures Normalised(Escaped("\r" + (feed + tail))) == Escaped(Normalised("\r" + (feed + tail)))
  {
    Prepended('\r', feed + tail);
    LineEnd(feed, tail);
    EscapedFeed(feed, tail);
    LineEnd(feed, Escaped(tail));
    Prepended('\n', Normalised(tail));
  }

  lemma EscapedFeed(feed: string, tail: string)
    requires feed == ['\n'] || (feed == [] && (tail == "" || tail[0] != '\n'))
    ensures Escaped(feed + tail) == feed + Escaped(tail)
    ensures feed == [] ==> Escaped(tail) == "" || Escaped(tail)[0] != '\n'
  {
    if feed == [] {
      assert feed + tail == tail && feed + Escaped(tail) == Escaped(tail);
    } else {
      Prepended('\n', tail);
    }
  }

  lemma Prepended(c: char, s: string)
    ensures Escaped([c] + s) == EscapedChar(c) + Escaped(s)
    ensures Escaped([c] + s)[0] == EscapedChar(c)[0] && Escaped([c] + s)[|EscapedChar(c)|..] == Escaped(s)
  {
    assert ([c] + s)[1..] == s;
  }

  /** What a reader of XML makes of the text between two tags. */
  function ReadText(s: string): Option<string> {
    if AllLegal(s) then Unescaped(Normalised(s)) else None
  }

  /** A reader finds an escaped key as it was exactly if the key has no carriage return and no illegal character. */
  lemma TextRoundTrip(s: string)
    ensures ReadText(Escaped(s)) == if AllLegal(s) then Some(Normalised(s)) else None
    ensures ReadText(Escaped(s)) == Some(s) <==> Plain(s)
  {
    LegalEscaped(s);
    NormalisedEscaped(s);
    EscapeRoundTrip(Normalised(s));
    UnchangedExactly(s);
    PlainMeans(s);
  }

  lemma {:induction false} LegalEscaped(s: string)
    ensures AllLegal(Escaped(s)) <==> AllLegal(s)
  {
    if s != "" {
      LegalEscaped(s[1..]);
      assert s == [s[0]] + s[1..];
      assert AllLegal(EscapedChar(s[0])) <==> Legal(s[0]);
    }
  }

  lemma UnescapeOne(c: char, rest: string)
    ensures Unescaped(EscapedChar(c) + rest) == Before(c, Unescaped(rest))
  {
    var e := EscapedChar(c);
    var s := e + rest;
    assert s[|e|..] == rest && s[0] == e[0];
    assert |e| > 1 ==> s[1] == e[1] && s[2] == e[2] && s[3] == e[3];
  }

  /** The fixed parts of a request body. */
  datatype Markup = Markup(header: string, open: string, close: string, footer: string)

  ghost predicate WellFormed(m: Markup) {
    && m.open != "" && m.footer != "" && m.open[0] != m.footer[0] && m.close != "" && m.close[0] == '<'
    && m.open[0] != '\n' && m.footer[0] != '\n'
    && Plain(m.header) && Plain(m.open) && Plain(m.close) && Plain(m.footer)
  }

  const XML_LINE := "<?xml version=\"1.0\" encoding=\"UTF-8\"?>\n"
  const DELETE_LINE := "<Delete>\n"
  const QUIET_LINE := "<Quiet>true</Quiet>\n"

  const DELETE := Markup(XML_LINE + DELETE_LINE + QUIET_LINE, "\t<Object><Key>", "</Key></Object>\n", "</Delete>\n")

  function Object(m: Markup, key: string): string {
    m.open + (Escaped(key) + m.close)
  }

  function Objects(m: Markup, keys: seq<string>): string
    decreases |keys|
  {
    if keys == [] then "" else Objects(m, keys[..|keys| - 1]) + Object(m, keys[|keys| - 1])
  }

  /** The body that deleteBatch posts. */
  function Body(m: Markup, keys: seq<string>): string {
    m.header + (Objects(m, keys) + m.footer)
  }

  /** Where the markup after some character data begins. */
  function TextLength(s: string): (n: nat)
    ensures n <= |s| && (n < |s| ==> s[n] == '<') && forall i :: 0 <= i < n ==> s[i] != '<'
  {
    if s == "" || s[0] == '<' then 0 else 1 + TextLength(s[1..])
  }

  /** What follows a known beginning. */
  function Behind(prefix: string, s: string): (rest: Option<string>)
    ensures rest.Some? <==> |prefix| <= |s| && s[..|prefix|] == prefix
    ensures rest.Some? ==> s == prefix + rest.value
  {
    if |prefix| <= |s| && s[..|prefix|] == prefix then Some(s[|prefix|..]) else None
  }

  /** A reader of such a body. */
  function ReadObjects(m: Markup, s: string): Option<seq<string>>
    decreases |s|
  {
    var text := Behind(m.open, s);
    if text.None? then if s == m.footer then Some([]) else None
    else
      var n := TextLength(text.value);
      var key, rest := Unescaped(text.value[..n]), Behind(m.close, text.value[n..]);
      if key.None? || rest.None? || |rest.value| >= |s| then None
      else
        var others := ReadObjects(m, rest.value);
        if others.None? then None else Some([key.value] + others.value)
  }

  /** A reader of XML: it refuses a document with illegal characters, and normalises line ends before anything else. */
  function ReadBody(m: Markup, s: string): Option<seq<string>> {
    if !AllLegal(s) then None
    else
      var objects := Behind(m.header, Normalised(s));
      if objects.None? then None else ReadObjects(m, objects.value)
  }

  lemma BehindPrefix(prefix: string, rest: string)
    ensures Behind(prefix, prefix + rest) == Some(rest)
  {
  }

  lemma Assoc(a: string, b: string, c: string)
    ensures a + b + c == a + (b + c)
  {
  }

  lemma {:induction false} ObjectsFromFront(m: Markup, keys: seq<string>)
    requires keys != []
    ensures Objects(m, keys) == Object(m, keys[0]) + Objects(m, keys[1..])
    decreases |keys|
  {
    var front, last := keys[..|keys| - 1], keys[|keys| - 1];
    if |keys| == 1 {
      assert Objects(m, front) == "" && Objects(m, keys[1..]) == "";
    } else {
      ObjectsFromFront(m, front);
      assert keys[1..][..|keys| - 2] == front[1..];
      assert Objects(m, keys[1..]) == Objects(m, front[1..]) + Object(m, last);
      Assoc(Object(m, keys[0]), Objects(m, front[1..]), Object(m, last));
    }
  }

  lemma {:induction false} ReadsObjects(m: Markup, keys: seq<string>)
    requires WellFormed(m)
    ensures ReadObjects(m, Objects(m, keys) + m.footer) == Some(keys)
    decreases |keys|
  {
    if keys == [] {
      NoObjects(m);
    } else {
      ObjectsFromFront(m, keys);
      ReadsObjects(m, keys[1..]);
      ReadsOne(m, keys[0], Objects(m, keys[1..]) + m.footer);
      Assoc(Object(m, keys[0]), Objects(m, keys[1..]), m.footer);
      assert [keys[0]] + keys[1..] == keys;
    }
  }

  lemma NoObjects(m: Markup)
    requires WellFormed(m)
    ensures ReadObjects(m, "" + m.footer) == Some([])
  {
  }

  lemma ReadsOne(m: Markup, key: string, rest: string)
    requires WellFormed(m) && ReadObjects(m, rest).Some?
    ensures ReadObjects(m, Object(m, key) + rest) == Some([key] + ReadObjects(m, rest).value)
  {
    EscapeRoundTrip(key);
    Assoc(m.open, Escaped(key) + m.close, rest);
    Assoc(Escaped(key), m.close, rest);
    BehindPrefix(m.open, Escaped(key) + (m.close + rest));
    BehindPrefix(m.close, rest);
    TextEnds(Escaped(key), m.close + rest);
  }

  lemma TextEnds(text: string, markup: string)
    requires forall i :: 0 <= i < |text| ==> text[i] != '<'
    requires markup != "" && markup[0] == '<'
    ensures TextLength(text + markup) == |text|
    ensures (text + markup)[..|text|] == text && (text + markup)[|text|..] == markup
  {
  }

  function NormalisedAll(keys: seq<string>): (r: seq<string>)
    ensures |r| == |keys| && forall i :: 0 <= i < |keys| ==> r[i] == Normalised(keys[i])
  {
    seq(|keys|, i requires 0 <= i < |keys| => Normalised(keys[i]))
  }

  lemma NormalisedObject(m: Markup, key: string)
    requires WellFormed(m)
    ensures Normalised(Object(m, key)) == Object(m, Normalised(key))
  {
    NormalisedConcat(m.open, Escaped(key) + m.close);
    NormalisedConcat(Escaped(key), m.close);
    PlainMeans(m.open);
    PlainMeans(m.close);
    UnchangedExactly(m.open);
    UnchangedExactly(m.close);
    NormalisedEscaped(key);
  }

  lemma {:induction false} NormalisedObjects(m: Markup, keys: seq<string>)
    requires WellFormed(m)
    ensures Normalised(Objects(m, keys)) == Objects(m, NormalisedAll(keys))
    decreases |keys|
  {
    if keys != [] {
      var front, last := keys[..|keys| - 1], keys[|keys| - 1];
      NormalisedObjects(m, front);
      NormalisedObject(m, last);
      NormalisedConcat(Objects(m, front), Object(m, last));
      assert NormalisedAll(keys)[..|front|] == NormalisedAll(front);
    }
  }

  lemma NormalisedBody(m: Markup, keys: seq<string>)
    requires WellFormed(m)
    ensures Normalised(Body(m, keys)) == Body(m, NormalisedAll(keys))
  {
    NormalisedConcat(m.header, Objects(m, keys) + m.footer);
    NormalisedConcat(Objects(m, keys), m.footer);
    PlainMeans(m.header);
    PlainMeans(m.footer);
    UnchangedExactly(m.header);
    UnchangedExactly(m.footer);
    NormalisedObjects(m, keys);
  }

  lemma LegalConcat(a: string, b: string)
    ensures AllLegal(a + b) <==> AllLegal(a) && AllLegal(b)
  {
    if AllLegal(a + b) {
      forall c | c in a ensures Legal(c) {
        assert c in a + b;
      }
      forall c | c in b ensures Legal(c) {
        assert c in a + b;
      }
    }
  }

  ghost predicate AllKeysLegal(keys: seq<string>) {
    forall i :: 0 <= i < |keys| ==> AllLegal(keys[i])
  }

  lemma {:induction false} LegalObjects(m: Markup, keys: seq<string>)
    requires WellFormed(m)
    ensures AllLegal(Objects(m, keys)) <==> AllKeysLegal(keys)
    decreases |keys|
  {
    if keys != [] {
      var front, last := keys[..|keys| - 1], keys[|keys| - 1];
      LegalObjects(m, front);
      LegalConcat(Objects(m, front), Object(m, last));
      PlainMeans(m.open);
      PlainMeans(m.close);
      LegalConcat(m.open, Escaped(last) + m.close);
      LegalConcat(Escaped(last), m.close);
      LegalEscaped(last);
      assert AllKeysLegal(keys) <==> AllKeysLegal(front) && AllLegal(last);
    }
  }

  /** What a reader finds in the body of any batch: nothing at all if some key has a character that XML does not
      admit, and otherwise the keys in order, with their line ends normalised. */
  lemma BodyReads(m: Markup, keys: seq<string>)
    requires WellFormed(m)
    ensures ReadBody(m, Body(m, keys)) == if AllKeysLegal(keys) then Some(NormalisedAll(keys)) else None
  {
    PlainMeans(m.header);
    PlainMeans(m.footer);
    LegalConcat(m.header, Objects(m, keys) + m.footer);
    LegalConcat(Objects(m, keys), m.footer);
    LegalObjects(m, keys);
    NormalisedBody(m, keys);
    ReadsObjects(m, NormalisedAll(keys));
    BehindPrefix(m.header, Objects(m, NormalisedAll(keys)) + m.footer);
  }

  lemma PlainConcat(a: string, b: string)
    requires Plain(a) && Plain(b)
    ensures Plain(a + b)
  {
  }

  lemma PlainLines()
    ensures Plain(XML_LINE) && Plain(DELETE_LINE) && Plain(QUIET_LINE)
  {
  }

  lemma PlainParts()
    ensures Plain(DELETE.open) && Plain(DELETE.close) && Plain(DELETE.footer)
  {
  }

  lemma DeleteWellFormed()
    ensures WellFormed(DELETE)
  {
    PlainLines();
    PlainParts();
    PlainConcat(XML_LINE, DELETE_LINE);
    PlainConcat(XML_LINE + DELETE_LINE, QUIET_LINE);
  }

  /** The body names exactly the keys of the batch, in order, if and only if no key contains a carriage return or a
      character that XML does not admit. */
  lemma BodyRoundTrip(keys: seq<string>)
    ensures ReadBody(DELETE, Body(DELETE, keys)) == Some(keys)
            <==> forall i :: 0 <= i < |keys| ==> Plain(keys[i])
  {
    DeleteWellFormed();
    BodyReads(DELETE, keys);
    forall i | 0 <= i < |keys|
      ensures NormalisedAll(keys)[i] == keys[i] <==> '\r' !in keys[i]
      ensures Plain(keys[i]) <==> AllLegal(keys[i]) && '\r' !in keys[i]
    {
      PlainMeans(keys[i]);
      UnchangedExactly(keys[i]);
    }
    assert NormalisedAll(keys) == keys <==> forall i :: 0 <= i < |keys| ==> NormalisedAll(keys)[i] == keys[i];
  }

  /** A key with a carriage return asks for the deletion of another object. */
  lemma CarriageReturnIsLost()
    ensures ReadBody(DELETE, Body(DELETE, ["a\rb"])) == Some(["a\nb"])
  {
    var key := "a\rb";
    assert AllLegal(key);
    assert key == ['a'] + ("\r" + ([] + "b"));
    PlainFirst('a', "\r" + ([] + "b"));
    LineEnd([], "b");
    NothingToDo("b");
    assert Normalised(key) == "a\nb";
    DeleteWellFormed();
    BodyReads(DELETE, [key]);
    assert NormalisedAll([key]) == ["a\nb"];
  }
}
