/** The two download strategies: a streamed body fetched with an abort signal, and a
    buffered body fetched with progress events. Both sign the current nonce, hand a
    challenge to the nonce setter, throw `Error(status)` on anything but 200, and retry
    on a 401 while a small try counter allows. */
module Downloader {
  import opened Wrappers
  import opened Common
  import opened Keychains
  import opened Auth

  /** The nonce update both strategies perform: only when a challenge header is present. */
  function AfterChallenge(k: Keychain, challenge: Option<string>): (r: Keychain)
    ensures !Truthy(challenge) ==> r == k
    ensures Truthy(challenge) ==> r == SetNonce(k, ParseNonce(challenge))
  {
    if Truthy(challenge) then SetNonce(k, ParseNonce(challenge)) else k
  }

  /** Guarding the update on the header's presence changes nothing: a missing or empty
      header parses to no nonce, which the setter ignores, so the update is the one
      `fetchWithAuth` performs unconditionally. */
  lemma GuardedUpdateIsUnconditional(k: Keychain, challenge: Option<string>)
    ensures AfterChallenge(k, challenge) == SetNonce(k, ParseNonce(challenge))
  {
    if !Truthy(challenge) {
      assert Split("") == [""];
    }
  }

  // ----- streamed download -----

  /** `downloadS`: one signed request; the body on 200, `Error(status)` otherwise. */
  function DownloadS(k: Keychain, p: Primitives, server: Server, attempt: nat): (x: Exchange<seq<Byte>>)
    ensures x.sent == [AuthHeader(k, p)]
    ensures server(attempt, AuthHeader(k, p)).Rejected? ==>
      x.result == Failure(server(attempt, AuthHeader(k, p)).error) && x.keychain == k
    ensures server(attempt, AuthHeader(k, p)).Answer? ==>
      var resp := server(attempt, AuthHeader(k, p)).response;
      && (x.result.Success? <==> resp.status == 200)
      && (x.result.Success? ==> x.result.value == resp.body)
      && (x.result.Failure? ==> x.result.error == Failed(resp.status))
      && x.keychain == SetNonce(k, ParseNonce(resp.challenge))
  {
    var auth := AuthHeader(k, p);
    match server(attempt, auth)
    case Rejected(e) => Exchange(Failure(e), k, [auth])
    case Answer(resp) =>
      GuardedUpdateIsUnconditional(k, resp.challenge);
      var k' := AfterChallenge(k, resp.challenge);
      if resp.status != 200 then Exchange(Failure(Failed(resp.status)), k', [auth])
      else Exchange(Success(resp.body), k', [auth])
  }

  /** The larger of one and `tries`: how many requests a try counter allows. */
  function Allowed(tries: int): nat
  {
    if tries > 1 then tries else 1
  }

  /** `tryDownloadStream`: retry after `Error('401')` while the decremented counter stays
      positive; an `AbortError` becomes `Error('0')`; any other error is rethrown. */
  function TryDownloadStream(k: Keychain, p: Primitives, server: Server, attempt: nat, tries: int)
    : (x: Exchange<seq<Byte>>)
    ensures 1 <= |x.sent| <= Allowed(tries)
    ensures x.sent[0] == AuthHeader(k, p)
    ensures x.result != Failure(AbortError)
    ensures var first := DownloadS(k, p, server, attempt);
      && (|x.sent| > 1 <==> first.result == Failure(Failed(401)) && tries > 1)
      && (|x.sent| == 1 ==> x == first.(result := MapAbort(first.result)))
      && (|x.sent| > 1 ==> x.sent[1] == AuthHeader(first.keychain, p))
    decreases tries
  {
    var first := DownloadS(k, p, server, attempt);
    match first.result
    case Success(_) => first
    case Failure(e) =>
      if e == Failed(401) && tries - 1 > 0 then
        var rest := TryDownloadStream(first.keychain, p, server, attempt + 1, tries - 1);
        Exchange(rest.result, rest.keychain, first.sent + rest.sent)
      else if e == AbortError then
        first.(result := Failure(Failed(0)))
      else
        first
  }

  /** Map an abort to `Error('0')`, leave everything else as is. */
  function MapAbort<R>(r: Result<R, Error>): Result<R, Error>
  {
    if r == Failure(AbortError) then Failure(Failed(0)) else r
  }

  /** `downloadStream`: at most two attempts; the second happens exactly when the first
      threw `Error('401')`, and its outcome, with an abort mapped to `Error('0')`, is the
      call's outcome. */
  function DownloadStream(k: Keychain, p: Primitives, server: Server): (x: Exchange<seq<Byte>>)
    ensures 1 <= |x.sent| <= 2
    ensures var first := DownloadS(k, p, server, 0);
      && (|x.sent| == 2 <==> first.result == Failure(Failed(401)))
      && (|x.sent| == 1 ==> x == first.(result := MapAbort(first.result)))
      && (|x.sent| == 2 ==>
            var second := DownloadS(first.keychain, p, server, 1);
            x == Exchange(MapAbort(second.result), second.keychain, first.sent + second.sent))
    ensures x.result != Failure(AbortError)
  {
    TryDownloadStream(k, p, server, 0, 2)
  }

  /** Unlike `fetchWithAuth`, the streamed download retries a 401 without comparing
      nonces: even a challenge that repeats the current nonce gets a second request. */
  lemma DownloadRetriesOnSameNonce(k: Keychain, p: Primitives, server: Server, scheme: string)
    requires ' ' !in scheme && ' ' !in k.nonce
    requires server(0, AuthHeader(k, p)) == Answer(Response(401, Some(scheme + " " + k.nonce), []))
    ensures DownloadStream(k, p, server).sent == [AuthHeader(k, p), AuthHeader(k, p)]
    ensures FetchWithAuthAndRetry(k, p, server).sent == [AuthHeader(k, p)]
  {
    ParseNonceOfChallenge(scheme, k.nonce, "");
    assert scheme + " " + k.nonce + "" == scheme + " " + k.nonce;
    NoRetryOnSameNonce(k, p, server, scheme);
  }

  // ----- buffered download with progress -----

  /** One progress event of the request, with the request's status at the moment it
      fired: a response that later aborts or breaks can fire events under status 200. */
  datatype ProgressEvent = ProgressEvent(loaded: nat, total: nat, lengthComputable: bool, status: int)

  /** What the request delivers: its final response (status 0 when it was aborted or
      failed on the network) and the progress events it fired. */
  datatype XhrReply = XhrReply(response: Response, events: seq<ProgressEvent>)

  type XhrServer = (nat, string) -> XhrReply

  /** A buffered download: the exchange plus every `[loaded, total]` pair reported. */
  datatype Transfer = Transfer(exchange: Exchange<seq<Byte>>, progress: seq<(nat, nat)>)

  /** Whether the listener forwards an event: its length is computable and the request's
      status was 200 when it fired. */
  predicate Forwarded(e: ProgressEvent)
  {
    e.lengthComputable && e.status == 200
  }

  /** The progress pairs forwarded to the caller, in the order the events fired. */
  function Reported(events: seq<ProgressEvent>): (r: seq<(nat, nat)>)
    ensures |r| <= |events|
    ensures (forall i :: 0 <= i < |events| ==> !Forwarded(events[i])) ==> r == []
    ensures (forall i :: 0 <= i < |events| ==> Forwarded(events[i])) ==>
      |r| == |events| && forall i :: 0 <= i < |r| ==> r[i] == (events[i].loaded, events[i].total)
  {
    if |events| == 0 then []
    else
      var rest := Reported(events[1..]);
      var e := events[0];
      if Forwarded(e) then [(e.loaded, e.total)] + rest else rest
  }

  /** The listener handles events one at a time: the pairs forwarded for two runs of
      events are those of the first run, then those of the second. */
  lemma {:induction false} ReportedAppend(a: seq<ProgressEvent>, b: seq<ProgressEvent>)
    ensures Reported(a + b) == Reported(a) + Reported(b)
  {
    if |a| > 0 {
      assert (a + b)[0] == a[0];
      assert (a + b)[1..] == a[1..] + b;
      ReportedAppend(a[1..], b);
    } else {
      assert a + b == b;
    }
  }

  /** A single event is forwarded as its `[loaded, total]` pair exactly when it is
      computable and fired under status 200. */
  lemma ReportedOne(e: ProgressEvent)
    ensures Reported([e]) == if Forwarded(e) then [(e.loaded, e.total)] else []
  {
    assert [e][1..] == [];
  }

  /** `download`: one signed request that first reports `[0, 1]`, then every computable
      event that fired under status 200; the body on 200, `Error(status)` otherwise. */
  function Download(k: Keychain, p: Primitives, server: XhrServer, attempt: nat): (t: Transfer)
    ensures t.exchange.sent == [AuthHeader(k, p)]
    ensures var resp := server(attempt, AuthHeader(k, p)).response;
      && (t.exchange.result.Success? <==> resp.status == 200)
      && (t.exchange.result.Success? ==> t.exchange.result.value == resp.body)
      && (t.exchange.result.Failure? ==> t.exchange.result.error == Failed(resp.status))
      && t.exchange.keychain == SetNonce(k, ParseNonce(resp.challenge))
    ensures t.progress == [(0, 1)] + Reported(server(attempt, AuthHeader(k, p)).events)
    ensures var events := server(attempt, AuthHeader(k, p)).events;
      (forall i :: 0 <= i < |events| ==> events[i].status != 200) ==> t.progress == [(0, 1)]
  {
    var auth := AuthHeader(k, p);
    var reply := server(attempt, auth);
    var resp := reply.response;
    GuardedUpdateIsUnconditional(k, resp.challenge);
    var k' := AfterChallenge(k, resp.challenge);
    var progress := [(0, 1)] + Reported(reply.events);
    if resp.status != 200 then Transfer(Exchange(Failure(Failed(resp.status)), k', [auth]), progress)
    else Transfer(Exchange(Success(resp.body), k', [auth]), progress)
  }

  /** A 200 response that fired a computable event and was then aborted, or lost its
      connection, ends with status 0: the event's pair was forwarded after `[0, 1]`, and
      the call throws `Error(0)`. */
  lemma AbortedAfterProgress(k: Keychain, p: Primitives, server: XhrServer, attempt: nat,
                             loaded: nat, total: nat)
    requires server(attempt, AuthHeader(k, p)) ==
      XhrReply(Response(0, None, []), [ProgressEvent(loaded, total, true, 200)])
    ensures Download(k, p, server, attempt).exchange.result == Failure(Failed(0))
    ensures Download(k, p, server, attempt).progress == [(0, 1), (loaded, total)]
  {
    ReportedOne(ProgressEvent(loaded, total, true, 200));
  }

  /** `tryDownload`: retry after `Error('401')` while the decremented counter stays
      positive; every other error is rethrown as is. */
  function TryDownload(k: Keychain, p: Primitives, server: XhrServer, attempt: nat, tries: int): (t: Transfer)
    ensures 1 <= |t.exchange.sent| <= Allowed(tries)
    ensures t.exchange.sent[0] == AuthHeader(k, p)
    ensures |t.progress| >= |t.exchange.sent| && t.progress[0] == (0, 1)
    ensures var first := Download(k, p, server, attempt);
      && (|t.exchange.sent| > 1 <==> first.exchange.result == Failure(Failed(401)) && tries > 1)
      && (|t.exchange.sent| == 1 ==> t == first)
      && (|t.exchange.sent| > 1 ==> t.exchange.sent[1] == AuthHeader(first.exchange.keychain, p))
      && (|t.exchange.sent| > 1 ==>
            && |t.progress| > |first.progress|
            && t.progress[..|first.progress|] == first.progress
            && t.progress[|first.progress|] == (0, 1))
    decreases tries
  {
    var first := Download(k, p, server, attempt);
    match first.exchange.result
    case Success(_) => first
    case Failure(e) =>
      if e == Failed(401) && tries - 1 > 0 then
        var rest := TryDownload(first.exchange.keychain, p, server, attempt + 1, tries - 1);
        var sent := first.exchange.sent + rest.exchange.sent;
        Transfer(Exchange(rest.exchange.result, rest.exchange.keychain, sent),
                 first.progress + rest.progress)
      else
        first
  }

  /** `downloadFile`: at most two attempts, the second exactly when the first failed
      with status 401; a cancelled request surfaces as status 0. */
  function DownloadFile(k: Keychain, p: Primitives, server: XhrServer): (t: Transfer)
    ensures 1 <= |t.exchange.sent| <= 2
    ensures var first := Download(k, p, server, 0);
      && (|t.exchange.sent| == 2 <==> first.exchange.result == Failure(Failed(401)))
      && (|t.exchange.sent| == 1 ==> t == first)
      && (|t.exchange.sent| == 2 ==>
            var second := Download(first.exchange.keychain, p, server, 1);
            && t.exchange.result == second.exchange.result
            && t.exchange.keychain == second.exchange.keychain
            && t.exchange.sent == first.exchange.sent + second.exchange.sent
            && t.progress == first.progress + second.progress)
  {
    TryDownload(k, p, server, 0, 2)
  }
}
