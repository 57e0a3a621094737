/** Uploader::uploadFileWithRetry of src/upload.cc: the loop around single upload attempts. */
module Retry {
  import opened Wrappers

  const RETRY_SLEEP_TIME: nat := 5
  const RETRY_FAIL_AFTER: nat := 3

  /** The results of curl that the program distinguishes. */
  datatype CurlCode =
    | CurlOk | CouldntResolveProxy | CouldntResolveHost | CouldntConnect | HttpReturnedError | WriteError
    | UploadFailed | OperationTimedOut | SslConnectError | PeerFailedVerification | SendError | ChunkFailed
    | FunctionFailed | OtherError

  /** The macro HTTP_SHOULD_RETRY_ON. */
  predicate ShouldRetryOn(code: CurlCode) {
    code in {CouldntResolveProxy, CouldntResolveHost, CouldntConnect, HttpReturnedError, WriteError, UploadFailed,
             OperationTimedOut, SslConnectError, PeerFailedVerification, SendError, ChunkFailed}
  }

  /** One call of uploadFile. It may give up before any request is made, and then it touches neither the status
      nor the MD5 of its caller. The message is the location of a redirect, or an error text. */
  datatype Attempt =
    | NotSent(message: string)
    | Sent(code: CurlCode, status: nat, etag: Option<string>, message: string)

  /** extractMD5FromETagHeaders: thirty-two characters between double quotes, or nothing. */
  function ExtractMd5(etag: Option<string>): (md5: string)
    ensures md5 == "" || (|md5| == 32 && etag == Some("\"" + md5 + "\""))
    ensures forall m: string :: |m| == 32 && etag == Some("\"" + m + "\"") ==> md5 == m
  {
    if etag.Some? && |etag.value| == 34 && etag.value[0] == '"' && etag.value[33] == '"' then
      assert etag.value == "\"" + etag.value[1..33] + "\"";
      etag.value[1..33]
    else
      assert forall m: string :: |m| == 32 ==> ("\"" + m + "\"")[0] == '"' && ("\"" + m + "\"")[33] == '"';
      ""
  }

  /** The variables of the loop: attempts since the last redirect, the URL to use next, and what the last
      request left in the caller's status and MD5. */
  datatype Loop = Loop(cUploads: nat, url: Option<string>, status: nat, md5: string)

  const START := Loop(0, None, 0, "")

  datatype End = Running(loop: Loop) | Returned(success: bool, status: nat, md5: string)

  function StatusAfter(status: nat, a: Attempt): nat {
    if a.NotSent? then status else a.status
  }

  function Md5After(md5: string, a: Attempt): string {
    if a.NotSent? then md5 else if a.code == CurlOk && a.status == 200 then ExtractMd5(a.etag) else ""
  }

  function CodeOf(a: Attempt): CurlCode {
    if a.NotSent? then FunctionFailed else a.code
  }

  /** errorResult, which the loop empties before each attempt. */
  function ErrorAfter(a: Attempt): string {
    if a.NotSent? || a.code != CurlOk || a.status == 307 then a.message else ""
  }

  /** One turn of the loop. A status of 307 counts as a redirect whoever left it there. */
  function Turn(l: Loop, a: Attempt): End {
    var status, md5 := StatusAfter(l.status, a), Md5After(l.md5, a);
    if status == 307 then Running(Loop(0, Some(ErrorAfter(a)), status, md5))
    else if CodeOf(a) == CurlOk then Returned(true, status, md5)
    else if ShouldRetryOn(CodeOf(a)) && l.cUploads + 1 < RETRY_FAIL_AFTER then
      Running(Loop(l.cUploads + 1, None, status, md5))
    else Returned(false, status, md5)
  }

  /** The seconds slept in one turn. */
  function SleepOf(l: Loop, a: Attempt): nat {
    if StatusAfter(l.status, a) != 307 && ShouldRetryOn(CodeOf(a)) then l.cUploads * RETRY_SLEEP_TIME else 0
  }

  /** What a run did: the URL passed to each attempt, whether it was seen as a redirect, the total sleep. */
  datatype Trace = Trace(urls: seq<Option<string>>, seen: seq<bool>, slept: nat, end: End)

  /** The run of the loop on the attempts the network and the file system provide. It stops early when the loop
      returns, and is still running when it has used them all up. */
  function RunFrom(l: Loop, script: seq<Attempt>): Trace
    decreases |script|
  {
    if script == [] then Trace([], [], 0, Running(l))
    else
      var seen := StatusAfter(l.status, script[0]) == 307;
      var slept := SleepOf(l, script[0]);
      match Turn(l, script[0])
      case Returned(_, _, _) => Trace([l.url], [seen], slept, Turn(l, script[0]))
      case Running(l') =>
        var rest := RunFrom(l', script[1..]);
        Trace([l.url] + rest.urls, [seen] + rest.seen, slept + rest.slept, rest.end)
  }

  function Redirects(seen: seq<bool>): nat {
    if seen == [] then 0 else (if seen[0] then 1 else 0) + Redirects(seen[1..])
  }

  /** A trace that begins with what was done before. */
  function After(urls: seq<Option<string>>, seen: seq<bool>, slept: nat, rest: Trace): Trace {
    Trace(urls + rest.urls, seen + rest.seen, slept + rest.slept, rest.end)
  }

  lemma AfterTurn(urls: seq<Option<string>>, seen: seq<bool>, slept: nat, l: Loop, script: seq<Attempt>, i: nat)
    requires i < |script|
    ensures var a := script[i];
            var urls', seen', slept' := urls + [l.url], seen + [StatusAfter(l.status, a) == 307], slept + SleepOf(l, a);
            After(urls, seen, slept, RunFrom(l, script[i..]))
            == match Turn(l, a)
               case Running(l') => After(urls', seen', slept', RunFrom(l', script[i + 1..]))
               case Returned(_, _, _) => Trace(urls', seen', slept', Turn(l, a))
  {
  }

  /** The loop as written, on a given script of attempts. */
  method UploadFileWithRetry(script: seq<Attempt>, httpStatusCode: nat, md5: string)
    returns (urls: seq<Option<string>>, seen: seq<bool>, slept: nat, end: End)
    ensures Trace(urls, seen, slept, end) == RunFrom(Loop(0, None, httpStatusCode, md5), script)
  {
    var cUploads: nat, url: Option<string>, status, digest := 0, None, httpStatusCode, md5;
    urls, seen, slept := [], [], 0;
    ghost var whole := RunFrom(Loop(0, None, httpStatusCode, md5), script);
    var i := 0;
    assert script[0..] == script;
    while i < |script|
      invariant 0 <= i <= |script| && cUploads < RETRY_FAIL_AFTER
      invariant whole == After(urls, seen, slept, RunFrom(Loop(cUploads, url, status, digest), script[i..]))
    {
      var a := script[i];
      AfterTurn(urls, seen, slept, Loop(cUploads, url, status, digest), script, i);
      urls := urls + [url];
      status, digest := StatusAfter(status, a), Md5After(digest, a);
      url := None;
      i := i + 1;
      seen := seen + [status == 307];
      if status == 307 {
        url := Some(ErrorAfter(a));
        cUploads := 0;
        continue;
      }
      if CodeOf(a) == CurlOk {
        return urls, seen, slept, Returned(true, status, digest);
      }
      if ShouldRetryOn(CodeOf(a)) {
        slept := slept + cUploads * RETRY_SLEEP_TIME;
      } else {
        return urls, seen, slept, Returned(false, status, digest);
      }
      cUploads := cUploads + 1;
      if !(cUploads < RETRY_FAIL_AFTER) {
        return urls, seen, slept, Returned(false, status, digest);
      }
    }
    end := Running(Loop(cUploads, url, status, digest));
  }

  /** With r attempts seen as redirects there are at most 3(r + 1) attempts and 5r + 15 seconds of sleep; a run
      that has not returned has made fewer attempts than that, so the loop ends unless redirects never do. */
  lemma {:induction false} Bounds(l: Loop, script: seq<Attempt>)
    requires l.cUploads < RETRY_FAIL_AFTER
    ensures var t := RunFrom(l, script);
            var r := Redirects(t.seen);
            && |t.urls| == |t.seen| <= 3 * (r + 1) - l.cUploads
            && t.slept <= 5 * r + 15 - (if l.cUploads == 2 then 5 else 0)
            && (t.end.Running? ==>
                  |t.urls| == |script| < 3 * (r + 1) - l.cUploads && t.end.loop.cUploads < RETRY_FAIL_AFTER)
    decreases |script|
  {
    if script != [] {
      var turn := Turn(l, script[0]);
      if turn.Running? {
        Bounds(turn.loop, script[1..]);
        var rest := RunFrom(turn.loop, script[1..]);
        assert RunFrom(l, script).seen[1..] == rest.seen;
      } else {
        assert RunFrom(l, script).seen[1..] == [];
      }
    }
  }

  /** A redirect URL is passed exactly to the attempt right after one seen as a redirect. It is the message that
      attempt left behind. */
  lemma {:induction false} UrlAfterRedirect(l: Loop, script: seq<Attempt>, k: nat)
    requires k < |RunFrom(l, script).urls|
    ensures |RunFrom(l, script).urls| == |RunFrom(l, script).seen| <= |script|
    ensures RunFrom(l, script).urls[k]
            == if k == 0 then l.url
               else if RunFrom(l, script).seen[k - 1] then Some(ErrorAfter(script[k - 1])) else None
    decreases |script|
  {
    var turn := Turn(l, script[0]);
    if turn.Running? {
      var rest := RunFrom(turn.loop, script[1..]);
      if k > 0 {
        UrlAfterRedirect(turn.loop, script[1..], k - 1);
      } else if rest.urls != [] {
        UrlAfterRedirect(turn.loop, script[1..], 0);
      } else {
        NoAttempts(turn.loop, script[1..]);
      }
    }
  }

  lemma NoAttempts(l: Loop, script: seq<Attempt>)
    requires RunFrom(l, script).urls == []
    ensures RunFrom(l, script).seen == []
  {
  }

  /** Whether an attempt is seen as a redirect depends on the last request that was really made: the attempt
      itself need not have reached the network. */
  function LastStatus(status: nat, script: seq<Attempt>, k: nat): nat
    requires k < |script|
  {
    if script[k].Sent? then script[k].status else if k == 0 then status else LastStatus(status, script, k - 1)
  }

  lemma {:induction false} SeenExactly(l: Loop, script: seq<Attempt>, k: nat)
    requires k < |RunFrom(l, script).seen|
    ensures k < |script| && (RunFrom(l, script).seen[k] <==> LastStatus(l.status, script, k) == 307)
    decreases |script|
  {
    var turn := Turn(l, script[0]);
    if k > 0 {
      SeenExactly(turn.loop, script[1..], k - 1);
      LastStatusShift(l, script, k);
    }
  }

  lemma {:induction false} LastStatusShift(l: Loop, script: seq<Attempt>, k: nat)
    requires 0 < k < |script|
    ensures LastStatus(l.status, script, k) == LastStatus(StatusAfter(l.status, script[0]), script[1..], k - 1)
    decreases k
  {
    if script[k].NotSent? && k > 1 {
      LastStatusShift(l, script, k - 1);
    }
  }

  /** The loop goes on only after an attempt seen as a redirect and after a failure worth retrying. */
  lemma {:induction false} GoesOn(l: Loop, script: seq<Attempt>, k: nat)
    requires k + 1 < |RunFrom(l, script).urls|
    ensures |RunFrom(l, script).urls| == |RunFrom(l, script).seen| <= |script|
    ensures RunFrom(l, script).seen[k] || ShouldRetryOn(CodeOf(script[k]))
    decreases |script|
  {
    UrlAfterRedirect(l, script, k);
    if k > 0 {
      GoesOn(Turn(l, script[0]).loop, script[1..], k - 1);
    }
  }

  /** When the loop returns, its verdict is the curl result of the last attempt, the status is that of the last
      request really made, and after a success with status 200 the MD5 is the one in that answer's tag. */
  lemma {:induction false} ReturnsExactly(l: Loop, script: seq<Attempt>)
    requires RunFrom(l, script).end.Returned?
    ensures var t := RunFrom(l, script);
            var n := |t.urls|;
            && 0 < n == |t.seen| <= |script| && !t.seen[n - 1]
            && t.end.success == (CodeOf(script[n - 1]) == CurlOk)
            && t.end.status == LastStatus(l.status, script, n - 1)
            && (t.end.success && t.end.status == 200 ==>
                  script[n - 1].Sent? && t.end.md5 == ExtractMd5(script[n - 1].etag))
    decreases |script|
  {
    var turn := Turn(l, script[0]);
    if turn.Running? {
      ReturnsExactly(turn.loop, script[1..]);
      LastStatusShift(l, script, |RunFrom(l, script).urls| - 1);
    }
  }

  /** A failure is returned either at once, when it is not worth retrying, or as the third in a row. */
  lemma {:induction false} FailsExactly(l: Loop, script: seq<Attempt>)
    requires RunFrom(l, script).end.Returned? && !RunFrom(l, script).end.success && l.cUploads < RETRY_FAIL_AFTER
    ensures var t := RunFrom(l, script);
            var n := |t.urls|;
            && 0 < n == |t.seen| <= |script|
            && (ShouldRetryOn(CodeOf(script[n - 1])) ==>
                  forall k :: n - 3 <= k < n && 0 <= k ==> !t.seen[k] && ShouldRetryOn(CodeOf(script[k])))
            && (ShouldRetryOn(CodeOf(script[n - 1])) ==> n + l.cUploads >= 3)
    decreases |script|
  {
    var t, turn := RunFrom(l, script), Turn(l, script[0]);
    if turn.Running? {
      var rest := RunFrom(turn.loop, script[1..]);
      FailsExactly(turn.loop, script[1..]);
    }
  }

  /** Once the status is 307, attempts that never reach the network are all taken for redirects: the loop neither
      returns nor sleeps, however many there are. */
  lemma {:induction false} StuckOnRedirect(l: Loop, script: seq<Attempt>)
    requires l.status == 307 && forall i :: 0 <= i < |script| ==> script[i].NotSent?
    ensures var t := RunFrom(l, script);
            t.end.Running? && t.slept == 0 && |t.urls| == |t.seen| == |script| && t.end.loop.status == 307
    decreases |script|
  {
    if script != [] {
      StuckOnRedirect(Turn(l, script[0]).loop, script[1..]);
    }
  }

  /** Two attempts of which only the first reached the network: both are seen as redirects, and the third is
      sent to what the second left as its error text. */
  lemma StaleRedirect(location: string, error: string)
    ensures var script := [Sent(CurlOk, 307, None, location), NotSent(error), Sent(CurlOk, 200, None, "")];
            var t := RunFrom(START, script);
            t.seen == [true, true, false] && t.urls == [None, Some(location), Some(error)]
  {
    var last := [Sent(CurlOk, 200, None, "")];
    var second := [NotSent(error)] + last;
    var script := [Sent(CurlOk, 307, None, location)] + second;
    assert script[1..] == second && second[1..] == last;
    var l1 := Loop(0, Some(location), 307, "");
    var l2 := Loop(0, Some(error), 307, "");
    assert RunFrom(l2, last) == Trace([l2.url], [false], 0, Returned(true, 200, ""));
    assert RunFrom(l1, second) == Trace([l1.url, l2.url], [true, false], 0, Returned(true, 200, ""));
    assert script == [Sent(CurlOk, 307, None, location), NotSent(error), Sent(CurlOk, 200, None, "")];
  }
}
