/** The challenge–response layer every authenticated request goes through: reading the
    nonce from a `WWW-Authenticate` challenge, signing the current nonce, and retrying
    once when the server rejects the request with a nonce the client did not use. The
    network is a function from (attempt number, Authorization value) to the reply. */
module Auth {
  import opened Wrappers
  import opened Common
  import opened Keychains

  // ----- challenge parsing -----

  /** Position of the first space of `s`. */
  function IndexOfSpace(s: string): (i: nat)
    requires ' ' in s
    ensures i < |s| && s[i] == ' ' && ' ' !in s[..i]
  {
    if s[0] == ' ' then 0 else
      assert s == [s[0]] + s[1..];
      1 + IndexOfSpace(s[1..])
  }

  /** The pieces between single spaces, JavaScript's `split(' ')`. */
  function Split(s: string): (parts: seq<string>)
    ensures |parts| >= 1
    ensures forall i :: 0 <= i < |parts| ==> ' ' !in parts[i]
    ensures ' ' !in s ==> parts == [s]
    ensures ' ' in s ==> var i := IndexOfSpace(s); parts == [s[..i]] + Split(s[i + 1..])
    decreases |s|
  {
    if ' ' !in s then [s] else
      var i := IndexOfSpace(s);
      [s[..i]] + Split(s[i + 1..])
  }

  /** The pieces put back together with single spaces. */
  function Unsplit(parts: seq<string>): string
    requires |parts| >= 1
  {
    if |parts| == 1 then parts[0] else parts[0] + " " + Unsplit(parts[1..])
  }

  /** Splitting loses nothing: the pieces rejoin to the input. */
  lemma {:induction false} SplitUnsplit(s: string)
    ensures Unsplit(Split(s)) == s
    decreases |s|
  {
    if ' ' in s {
      var i := IndexOfSpace(s);
      SplitUnsplit(s[i + 1..]);
      assert Split(s)[1..] == Split(s[i + 1..]);
      assert s == s[..i] + " " + s[i + 1..];
    }
  }

  /** `parseNonce`: the second space-separated token of the challenge; a missing or empty
      header is read as the empty string, which has no second token. */
  function ParseNonce(header: Option<string>): (n: Option<string>)
    ensures n.Some? ==> ' ' !in n.value
  {
    var parts := Split(if Truthy(header) then header.value else "");
    if |parts| > 1 then Some(parts[1]) else None
  }

  /** A nonce is found exactly when the header is present and holds a space. */
  lemma ParseNonceFound(header: Option<string>)
    ensures ParseNonce(header).Some? <==> Truthy(header) && ' ' in header.value
  {
  }

  /** A challenge `<scheme> <nonce>`, possibly followed by more space-separated text,
      yields its nonce. */
  lemma {:induction false} ParseNonceOfChallenge(scheme: string, nonce: string, tail: string)
    requires ' ' !in scheme && ' ' !in nonce
    requires tail == [] || tail[0] == ' '
    ensures ParseNonce(Some(scheme + " " + nonce + tail)) == Some(nonce)
  {
    var h := scheme + " " + nonce + tail;
    assert h[..|scheme|] == scheme && h[|scheme|] == ' ';
    assert IndexOfSpace(h) == |scheme|;
    assert h[|scheme| + 1..] == nonce + tail;
    var rest := nonce + tail;
    if tail == [] {
      assert rest == nonce;
    } else {
      assert rest[..|nonce|] == nonce && rest[|nonce|] == ' ';
      assert IndexOfSpace(rest) == |nonce|;
    }
  }

  // ----- authenticated fetch with one retry -----

  /** What the client sees of an HTTP response. */
  datatype Response = Response(status: int, challenge: Option<string>, body: seq<Byte>)

  /** A fetch either answers or rejects (abort, network failure). */
  datatype Reply = Answer(response: Response) | Rejected(error: Error)

  /** The server and network: the reply to the given attempt carrying the given header. */
  type Server = (nat, string) -> Reply

  /** The record `fetchWithAuth` resolves with. */
  datatype Fetched = Fetched(response: Response, ok: bool, shouldRetry: bool)

  /** A finished call: its result, the keychain afterwards, and the Authorization value of
      every request made, in order. */
  datatype Exchange<R> = Exchange(result: Result<R, Error>, keychain: Keychain, sent: seq<string>)

  /** `response.ok`: a 2xx status. */
  predicate IsOk(status: int)
  {
    200 <= status <= 299
  }

  /** `fetchWithAuth`: sign the current nonce, send, then record whether to retry and
      hand the challenge's nonce to the setter. */
  function FetchWithAuth(k: Keychain, p: Primitives, server: Server, attempt: nat): (x: Exchange<Fetched>)
    ensures x.sent == [AuthHeader(k, p)]
    ensures server(attempt, AuthHeader(k, p)).Rejected? ==>
      x.result == Failure(server(attempt, AuthHeader(k, p)).error) && x.keychain == k
    ensures server(attempt, AuthHeader(k, p)).Answer? ==>
      var resp := server(attempt, AuthHeader(k, p)).response;
      && x.result.Success? && x.result.value.response == resp
      && (x.result.value.ok <==> IsOk(resp.status))
      && (x.result.value.shouldRetry <==> resp.status == 401 && ParseNonce(resp.challenge) != Some(k.nonce))
      && x.keychain == SetNonce(k, ParseNonce(resp.challenge))
  {
    var h := AuthHeader(k, p);
    match server(attempt, h)
    case Rejected(e) => Exchange(Failure(e), k, [h])
    case Answer(resp) =>
      var nonce := ParseNonce(resp.challenge);
      var shouldRetry := resp.status == 401 && nonce != Some(k.nonce);
      Exchange(Success(Fetched(resp, IsOk(resp.status), shouldRetry)), SetNonce(k, nonce), [h])
  }

  /** A retry is only asked for on a 401, and when the challenge carried a nonce, the
      keychain has moved to it, so the retry signs a different nonce; a 401 that
      repeats the current nonce asks for no retry and leaves the keychain alone. */
  lemma RetryMeansFreshNonce(k: Keychain, p: Primitives, server: Server, attempt: nat)
    requires server(attempt, AuthHeader(k, p)).Answer?
    ensures FetchWithAuth(k, p, server, attempt).result.Success?
    ensures var x := FetchWithAuth(k, p, server, attempt);
      var resp := x.result.value.response;
      && (x.result.value.shouldRetry ==> resp.status == 401)
      && (x.result.value.shouldRetry && Truthy(ParseNonce(resp.challenge)) ==> x.keychain.nonce != k.nonce)
      && (resp.status == 401 && !x.result.value.shouldRetry ==> x.keychain == k)
  {
  }

  /** `fetchWithAuthAndRetry`: one request, and a second one only when the first asked
      for a retry; the second's result is returned whatever it is. */
  function FetchWithAuthAndRetry(k: Keychain, p: Primitives, server: Server): (x: Exchange<Fetched>)
    ensures 1 <= |x.sent| <= 2
    ensures x.sent[0] == AuthHeader(k, p)
    ensures var first := FetchWithAuth(k, p, server, 0);
      |x.sent| == 2 <==> first.result.Success? && first.result.value.shouldRetry
    ensures var first := FetchWithAuth(k, p, server, 0);
      |x.sent| == 2 ==>
        && x.sent[1] == AuthHeader(first.keychain, p)
        && x == FetchWithAuth(first.keychain, p, server, 1).(sent := x.sent)
    ensures |x.sent| == 1 ==> x == FetchWithAuth(k, p, server, 0)
  {
    var first := FetchWithAuth(k, p, server, 0);
    if first.result.Success? && first.result.value.shouldRetry then
      var second := FetchWithAuth(first.keychain, p, server, 1);
      Exchange(second.result, second.keychain, first.sent + second.sent)
    else
      first
  }

  /** A 401 whose challenge carries a new nonce N2 is retried once, signing N2; the
      retry's answer is the call's answer, so a correctly authenticated retry succeeds. */
  lemma RetryWithNewNonce(k: Keychain, p: Primitives, server: Server, scheme: string, n2: string)
    requires ' ' !in scheme && ' ' !in n2 && n2 != "" && n2 != k.nonce
    requires server(0, AuthHeader(k, p)).Answer?
    requires server(0, AuthHeader(k, p)).response.status == 401
    requires server(0, AuthHeader(k, p)).response.challenge == Some(scheme + " " + n2)
    ensures var x := FetchWithAuthAndRetry(k, p, server);
      && x.sent == [AuthHeader(k, p), AuthHeader(k.(nonce := n2), p)]
      && FetchWithAuth(k, p, server, 0).keychain == k.(nonce := n2)
      && (server(1, AuthHeader(k.(nonce := n2), p)) == Answer(Response(200, None, [])) ==>
            x.result.Success? && x.result.value.ok)
  {
    ParseNonceOfChallenge(scheme, n2, "");
    assert scheme + " " + n2 + "" == scheme + " " + n2;
  }

  /** A 401 whose challenge repeats the nonce just used is not retried: one request, and
      the call fails with that response. */
  lemma NoRetryOnSameNonce(k: Keychain, p: Primitives, server: Server, scheme: string)
    requires ' ' !in scheme && ' ' !in k.nonce
    requires server(0, AuthHeader(k, p)).Answer?
    requires server(0, AuthHeader(k, p)).response.status == 401
    requires server(0, AuthHeader(k, p)).response.challenge == Some(scheme + " " + k.nonce)
    ensures var x := FetchWithAuthAndRetry(k, p, server);
      && x.sent == [AuthHeader(k, p)]
      && x.keychain == k
      && x.result.Success? && !x.result.value.ok && x.result.value.response.status == 401
  {
    ParseNonceOfChallenge(scheme, k.nonce, "");
    assert scheme + " " + k.nonce + "" == scheme + " " + k.nonce;
  }

  /** A 401 without a challenge header is retried as written (the missing nonce differs
      from the keychain's), and the retry repeats the very same Authorization value. */
  lemma RetryWithoutChallenge(k: Keychain, p: Primitives, server: Server)
    requires server(0, AuthHeader(k, p)).Answer?
    requires server(0, AuthHeader(k, p)).response.status == 401
    requires server(0, AuthHeader(k, p)).response.challenge.None?
    ensures FetchWithAuthAndRetry(k, p, server).sent == [AuthHeader(k, p), AuthHeader(k, p)]
  {
  }
}
