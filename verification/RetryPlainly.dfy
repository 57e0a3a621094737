/** What the two retry loops do on the scripts that matter, attempt by attempt and second by second. */
module RetryPlainly {
  import opened HeadRun
  import opened HeadVerdict
  import opened Retry
  import opened Wrappers

  /** The results after which another attempt may help: all but these three. */
  predicate Transient(code: CurlCode) {
    code != CurlOk && code != FunctionFailed && code != OtherError
  }

  // Uploads

  lemma {:induction false} OneTurn(l: Loop, a: Attempt, rest: seq<Attempt>)
    ensures var seen := StatusAfter(l.status, a) == 307;
            RunFrom(l, [a] + rest)
            == if Turn(l, a).Running? then After([l.url], [seen], SleepOf(l, a), RunFrom(Turn(l, a).loop, rest))
               else Trace([l.url], [seen], SleepOf(l, a), Turn(l, a))
  {
    assert ([a] + rest)[1..] == rest;
  }

  /** Three such failures, whatever they are, make exactly three attempts at the same address and fifteen seconds of
      sleep; then the failure is returned. */
  lemma ThreeFailures(codes: seq<CurlCode>, message: string, rest: seq<Attempt>)
    requires |codes| == 3 && forall i :: 0 <= i < 3 ==> Transient(codes[i])
    ensures var a, b, c := Sent(codes[0], 0, None, message), Sent(codes[1], 0, None, message),
                           Sent(codes[2], 0, None, message);
            RunFrom(START, [a] + ([b] + ([c] + rest)))
            == Trace([None, None, None], [false, false, false], 15, Returned(false, 0, ""))
  {
    var a, b, c := Sent(codes[0], 0, None, message), Sent(codes[1], 0, None, message), Sent(codes[2], 0, None, message);
    OneTurn(Loop(2, None, 0, ""), c, rest);
    OneTurn(Loop(1, None, 0, ""), b, [c] + rest);
    OneTurn(START, a, [b] + ([c] + rest));
  }

  /** Two of them, and then an answer: five seconds of sleep. */
  lemma ThirdTimeLucky(codes: seq<CurlCode>, message: string, etag: Option<string>, rest: seq<Attempt>)
    requires |codes| == 2 && Transient(codes[0]) && Transient(codes[1])
    ensures var a, b := Sent(codes[0], 0, None, message), Sent(codes[1], 0, None, message);
            RunFrom(START, [a] + ([b] + ([Sent(CurlOk, 200, etag, message)] + rest)))
            == Trace([None, None, None], [false, false, false], 5, Returned(true, 200, ExtractMd5(etag)))
  {
    var a, b := Sent(codes[0], 0, None, message), Sent(codes[1], 0, None, message);
    var c := Sent(CurlOk, 200, etag, message);
    OneTurn(Loop(2, None, 0, ""), c, rest);
    OneTurn(Loop(1, None, 0, ""), b, [c] + rest);
    OneTurn(START, a, [b] + ([c] + rest));
  }

  /** Any other failure, and any answer but a redirect, ends the loop at once. */
  lemma AtOnce(a: Attempt, rest: seq<Attempt>)
    requires a.Sent? ==> a.status != 307 && !Transient(a.code)
    ensures RunFrom(START, [a] + rest)
            == Trace([None], [false], 0,
                     if a.NotSent? then Returned(false, 0, "")
                     else if a.code == CurlOk && a.status == 200 then Returned(true, 200, ExtractMd5(a.etag))
                     else Returned(a.code == CurlOk, a.status, ""))
  {
    OneTurn(START, a, rest);
  }

  /** After a redirect, however many failures came before it, the next attempt goes to the address in it, without
      sleep, and the count of failures starts afresh. */
  lemma Redirected(l: Loop, location: string, rest: seq<Attempt>)
    ensures RunFrom(l, [Sent(CurlOk, 307, None, location)] + rest)
            == After([l.url], [true], 0, RunFrom(Loop(0, Some(location), 307, ""), rest))
  {
    OneTurn(l, Sent(CurlOk, 307, None, location), rest);
  }

  /** So a redirect between failures: six attempts and twenty seconds. */
  lemma RedirectBetween(code: CurlCode, location: string, message: string)
    requires Transient(code)
    ensures var f, r := Sent(code, 0, None, message), Sent(CurlOk, 307, None, location);
            RunFrom(START, [f] + ([f] + ([r] + ([f] + ([f] + [f])))))
            == Trace([None, None, None, Some(location), None, None], [false, false, true, false, false, false], 20,
                     Returned(false, 0, ""))
  {
    var f, r := Sent(code, 0, None, message), Sent(CurlOk, 307, None, location);
    assert [f] + [] == [f];
    OneTurn(Loop(2, None, 0, ""), f, []);
    OneTurn(Loop(1, None, 0, ""), f, [f]);
    OneTurn(Loop(0, Some(location), 307, ""), f, [f] + [f]);
    Redirected(Loop(2, None, 0, ""), location, [f] + ([f] + [f]));
    OneTurn(Loop(1, None, 0, ""), f, [r] + ([f] + ([f] + [f])));
    OneTurn(START, f, [f] + ([r] + ([f] + ([f] + [f]))));
  }

  // Requests for metadata

  lemma {:induction false} OneAnswer(url: Option<string>, cUploads: nat, a: Answer, rest: seq<Answer>)
    ensures var phase := AnsweredPhase(url, cUploads, a);
            var redirect := if a.code == CurlOk && a.status == 307 then 1 else 0;
            var t := Attempts(url, cUploads, [a] + rest);
            if !phase.Trying? then t == HeadTrace(1, redirect, HeadSleep(cUploads, a), phase)
            else
              var u := Attempts(phase.url, phase.cUploads, rest);
              t == HeadTrace(1 + u.attempts, redirect + u.redirects, HeadSleep(cUploads, a) + u.slept, u.end)
  {
    assert ([a] + rest)[1..] == rest;
  }

  /** After a redirect the worker tries the address in that answer, with all its attempts before it again. */
  lemma HeadRedirected(url: Option<string>, cUploads: nat, a: Answer, rest: seq<Answer>)
    requires a.code == CurlOk && a.status == 307
    ensures Attempts(url, cUploads, [a]) == HeadTrace(1, 1, 0, Trying(Some(a.location), 0))
    ensures var t, u := Attempts(url, cUploads, [a] + rest), Attempts(Some(a.location), 0, rest);
            t == HeadTrace(1 + u.attempts, 1 + u.redirects, u.slept, u.end)
  {
    OneAnswer(url, cUploads, a, rest);
    OneAnswer(url, cUploads, a, []);
    assert [a] + [] == [a];
  }

  /** A first and a second timeout are tried again at the same address, the second after five seconds; after the third
      and ten more seconds the worker fails. The same goes for every other failure of that kind. */
  lemma HeadTimeouts(url: Option<string>, a: Answer, b: Answer, c: Answer, rest: seq<Answer>)
    requires Transient(a.code) && Transient(b.code) && Transient(c.code)
    ensures Attempts(url, 0, [a] + []) == HeadTrace(1, 0, 0, Trying(url, 1))
    ensures Attempts(url, 0, [a] + ([b] + [])) == HeadTrace(2, 0, 5, Trying(url, 2))
    ensures Attempts(url, 0, [a] + ([b] + ([c] + rest))) == HeadTrace(3, 0, 15, Failing)
  {
    OneAnswer(url, 2, c, rest);
    OneAnswer(url, 1, b, [c] + rest);
    OneAnswer(url, 0, a, [b] + ([c] + rest));
    OneAnswer(url, 1, b, []);
    OneAnswer(url, 0, a, [b] + []);
    OneAnswer(url, 0, a, []);
  }

  /** Any other answer settles it: 200 gives the time modulo 2^32, everything else is a failure. */
  lemma HeadAtOnce(url: Option<string>, cUploads: nat, a: Answer, rest: seq<Answer>)
    requires !Transient(a.code) && !(a.code == CurlOk && a.status == 307)
    ensures Attempts(url, cUploads, [a] + rest)
            == HeadTrace(1, 0, 0,
                         if a.code == CurlOk && a.status == 200 then Writing(a.mtime % 0x1_0000_0000) else Failing)
  {
    OneAnswer(url, cUploads, a, rest);
  }
}
