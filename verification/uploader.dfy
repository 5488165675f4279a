/** The upload over a duplex channel: one header frame, the data chunks in order, a
    one-byte footer, then one awaited server reply. Cancellation is cooperative: the
    shared canceller is looked at once per chunk, after the chunk is read and before it
    is sent. Everything that can happen while the upload runs is an event: the stream
    reader delivering its next result, the user calling `cancel()`, or a server message
    reaching the response listener. */
module Uploader {
  import opened Wrappers
  import opened Common
  import opened Keychains

  /** What the encrypted stream reports about itself. */
  datatype StreamInfo = StreamInfo(recordSize: nat, fileSize: nat)

  /** The shared canceller object. */
  datatype Canceller = Active | Cancelled(error: Error)

  /** `cancel()`: record `Error(0)` and mark the upload cancelled. */
  function Cancel(c: Canceller): (r: Canceller)
    ensures r.Cancelled? && r.error == Failed(0)
  {
    Cancelled(Failed(0))
  }

  /** Cancelling is idempotent, whoever cancelled first. */
  lemma CancelIdempotent(c: Canceller)
    ensures Cancel(Cancel(c)) == Cancel(c)
  {
  }

  /** A frame the client sends: the JSON header or a binary frame. */
  datatype Frame = Header(fileMetadata: string, authorization: string) | Binary(bytes: seq<Byte>)

  /** The one-byte terminator frame. */
  const Footer: Frame := Binary([0])

  /** A frame the server sends, as `JSON.parse` reads it. */
  datatype ServerMessage = Malformed | Message(error: Option<string>, url: string, id: string, owner: string)

  datatype UploadResponse = UploadResponse(url: string, id: string, ownerToken: string)

  /** One happening while the upload runs. */
  datatype Event = Read | UserCancel | Incoming(message: ServerMessage)

  /** Where the upload is: in its read loop, awaiting the reply after the footer, or settled. */
  datatype Phase = Streaming | Awaiting | Finished(result: Result<UploadResponse, Error>)

  /** The upload's observable state. `response` is the listener's promise (settled once);
      `closes` logs every `close` call on the channel with its code, if any. */
  datatype Session = Session(
    phase: Phase,
    canceller: Canceller,
    response: Option<Result<UploadResponse, Error>>,
    sent: nat,
    bytes: nat,
    footerSent: bool,
    frames: seq<Frame>,
    progress: seq<(nat, nat)>,
    closes: seq<Option<int>>)

  /** The close code of every failure path. */
  const AbnormalClose: int := 4000

  /** `listenForResponse`, for one message: a malformed frame or one with a truthy `error`
      rejects; anything else resolves with the destination. */
  function ListenForResponse(m: ServerMessage): (r: Result<UploadResponse, Error>)
    ensures m.Malformed? ==> r == Failure(ParseError)
    ensures m.Message? && Truthy(m.error) ==> r == Failure(ServerError(m.error.value))
    ensures m.Message? && !Truthy(m.error) ==> r == Success(UploadResponse(m.url, m.id, m.owner))
  {
    match m
    case Malformed => Failure(ParseError)
    case Message(error, url, id, owner) =>
      if Truthy(error) then Failure(ServerError(error.value)) else Success(UploadResponse(url, id, owner))
  }

  /** The listener's effect: the promise settles on the first message only, while every
      rejecting message closes the channel and marks the canceller with its error. */
  function OnMessage(s: Session, m: ServerMessage): (r: Session)
    ensures r.response.Some?
    ensures s.response.Some? ==> r.response == s.response
    ensures s.response.None? ==> r.response == Some(ListenForResponse(m))
    ensures ListenForResponse(m).Failure? ==>
      r.canceller == Cancelled(ListenForResponse(m).error) && r.closes == s.closes + [None]
    ensures ListenForResponse(m).Success? ==> r.canceller == s.canceller && r.closes == s.closes
    ensures r.(response := s.response, canceller := s.canceller, closes := s.closes) == s
  {
    var outcome := ListenForResponse(m);
    var settled := if s.response.Some? then s.response else Some(outcome);
    if outcome.Failure? then
      s.(response := settled, canceller := Cancelled(outcome.error), closes := s.closes + [None])
    else
      s.(response := settled)
  }

  /** After the footer: once the promise has settled, close normally on success, or close
      with 4000 and throw on failure. */
  function Settle(s: Session): (r: Session)
    ensures r != s <==> s.phase.Awaiting? && s.response.Some?
    ensures s.phase.Awaiting? && s.response.Some? ==>
      && r.phase == Finished(s.response.value)
      && r.closes == s.closes + [if s.response.value.Success? then None else Some(AbnormalClose)]
    ensures r.(phase := s.phase, closes := s.closes) == s
  {
    if s.phase.Awaiting? && s.response.Some? then
      match s.response.value
      case Success(resp) => s.(phase := Finished(Success(resp)), closes := s.closes + [None])
      case Failure(e) => s.(phase := Finished(Failure(e)), closes := s.closes + [Some(AbnormalClose)])
    else
      s
  }

  /** The upload reacting to one event. */
  function Step(chunks: seq<Chunk>, info: StreamInfo, s: Session, e: Event): (r: Session)
    ensures s.phase.Finished? ==> r == s
    ensures s.sent <= r.sent <= s.sent + 1
    ensures r.sent == s.sent + 1 ==> e.Read? && s.phase.Streaming? && s.canceller.Active?
    ensures s.phase.Streaming? && e.Read? && s.sent < |chunks| && s.canceller.Cancelled? ==>
      && r.phase == Finished(Failure(s.canceller.error))
      && r.frames == s.frames && r.sent == s.sent
      && r.closes == s.closes + [Some(AbnormalClose)]
    ensures |r.frames| >= |s.frames| && r.frames[..|s.frames|] == s.frames
    ensures |r.closes| >= |s.closes| && r.closes[..|s.closes|] == s.closes
    ensures s.response.Some? ==> r.response == s.response
  {
    match s.phase
    case Finished(_) => s
    case Awaiting =>
      (match e
       case Read => s
       case UserCancel => s.(canceller := Cancel(s.canceller))
       case Incoming(m) => Settle(OnMessage(s, m)))
    case Streaming =>
      match e
      case UserCancel => s.(canceller := Cancel(s.canceller))
      case Incoming(m) => OnMessage(s, m)
      case Read =>
        if s.sent >= |chunks| then
          Settle(s.(frames := s.frames + [Footer], footerSent := true, phase := Awaiting))
        else if s.canceller.Cancelled? then
          s.(phase := Finished(Failure(s.canceller.error)), closes := s.closes + [Some(AbnormalClose)])
        else
          var buf := chunks[s.sent];
          s.(frames := s.frames + [Binary(buf)],
             progress := s.progress + [(s.bytes, info.fileSize)],
             bytes := s.bytes + |buf|,
             sent := s.sent + 1)
  }

  /** The upload reacting to a sequence of events, in order. */
  function Run(chunks: seq<Chunk>, info: StreamInfo, s: Session, events: seq<Event>): Session
    decreases |events|
  {
    if |events| == 0 then s else Run(chunks, info, Step(chunks, info, s, events[0]), events[1..])
  }

  /** The header frame: the metadata in base64 and the verifier under the `send-v1` scheme. */
  function HeaderFrame(p: Primitives, metadata: seq<Byte>, verifierB64: string): (f: Frame)
    ensures f.Header? && f.fileMetadata == p.toB64(metadata)
    ensures Credential(f.authorization) == Some(verifierB64)
  {
    assert (AuthScheme + verifierB64)[..|AuthScheme|] == AuthScheme;
    Header(p.toB64(metadata), AuthScheme + verifierB64)
  }

  /** The state right after the header frame went out. */
  function Start(p: Primitives, metadata: seq<Byte>, verifierB64: string): Session
  {
    Session(Streaming, Active, None, 0, 0, false, [HeaderFrame(p, metadata, verifierB64)], [], [])
  }

  /** The data frames for some chunks, one per chunk, unchanged. */
  function DataFrames(cs: seq<Chunk>): (r: seq<Frame>)
    ensures |r| == |cs| && forall i :: 0 <= i < |cs| ==> r[i] == Binary(cs[i])
  {
    seq(|cs|, i requires 0 <= i < |cs| => Binary(cs[i]))
  }

  /** What has gone out so far: the header, the first `sent` chunks in order, the footer
      only after the last chunk, and one progress report per chunk sent. */
  ghost predicate Sent(chunks: seq<Chunk>, info: StreamInfo, header: Frame, s: Session)
  {
    && s.sent <= |chunks|
    && (s.footerSent ==> s.sent == |chunks|)
    && s.frames == [header] + DataFrames(chunks[..s.sent]) + (if s.footerSent then [Footer] else [])
    && s.bytes == |Join(chunks[..s.sent])|
    && |s.progress| == s.sent
    && (forall j :: 0 <= j < s.sent ==> s.progress[j] == (|Join(chunks[..j])|, info.fileSize))
  }

  /** How the phase relates to the footer, the promise and the last close. */
  ghost predicate Exits(s: Session)
  {
    && (s.phase.Streaming? ==> !s.footerSent)
    && (s.phase.Awaiting? ==> s.footerSent && s.response.None?)
    && (s.phase.Finished? && s.phase.result.Success? ==>
          s.footerSent && |s.closes| >= 1 && s.closes[|s.closes| - 1] == None)
    && (s.phase.Finished? && s.phase.result.Failure? ==>
          |s.closes| >= 1 && s.closes[|s.closes| - 1] == Some(AbnormalClose))
    && (s.phase.Finished? && s.phase.result.Failure? && !s.footerSent ==>
          s.canceller == Cancelled(s.phase.result.error))
    && (s.phase.Finished? && s.footerSent ==> s.response == Some(s.phase.result))
  }

  /** The shape every reachable session has. */
  ghost predicate Inv(chunks: seq<Chunk>, info: StreamInfo, header: Frame, s: Session)
  {
    Sent(chunks, info, header, s) && Exits(s)
  }

  /** Sending one more chunk keeps the record of what went out. */
  lemma SendKeepsSent(chunks: seq<Chunk>, info: StreamInfo, header: Frame, s: Session)
    requires Sent(chunks, info, header, s) && !s.footerSent && s.sent < |chunks|
    ensures var buf := chunks[s.sent];
      Sent(chunks, info, header, s.(frames := s.frames + [Binary(buf)],
                                    progress := s.progress + [(s.bytes, info.fileSize)],
                                    bytes := s.bytes + |buf|,
                                    sent := s.sent + 1))
  {
    assert chunks[..s.sent + 1] == chunks[..s.sent] + [chunks[s.sent]];
    JoinSnoc(chunks[..s.sent], chunks[s.sent]);
    assert DataFrames(chunks[..s.sent + 1]) == DataFrames(chunks[..s.sent]) + [Binary(chunks[s.sent])];
  }

  /** The record of what went out depends on nothing but the fields that record it. */
  lemma SentFrame(chunks: seq<Chunk>, info: StreamInfo, header: Frame, s: Session, r: Session)
    requires Sent(chunks, info, header, s)
    requires r.sent == s.sent && r.footerSent == s.footerSent && r.frames == s.frames
    requires r.bytes == s.bytes && r.progress == s.progress
    ensures Sent(chunks, info, header, r)
  {
  }

  lemma StepKeepsInv(chunks: seq<Chunk>, info: StreamInfo, header: Frame, s: Session, e: Event)
    requires Inv(chunks, info, header, s)
    ensures Inv(chunks, info, header, Step(chunks, info, s, e))
  {
    var r := Step(chunks, info, s, e);
    match s.phase
    case Finished(_) =>
      assert r == s;
    case Awaiting =>
      SentFrame(chunks, info, header, s, r);
    case Streaming =>
      if e.Read? && s.sent >= |chunks| {
        assert chunks[..s.sent] == chunks;
        assert r.frames == s.frames + [Footer];
      } else if e.Read? && s.canceller.Active? {
        SendKeepsSent(chunks, info, header, s);
      } else {
        SentFrame(chunks, info, header, s, r);
      }
  }

  lemma {:induction false} RunKeepsInv(chunks: seq<Chunk>, info: StreamInfo, header: Frame, s: Session, events: seq<Event>)
    requires Inv(chunks, info, header, s)
    ensures Inv(chunks, info, header, Run(chunks, info, s, events))
    decreases |events|
  {
    if |events| > 0 {
      StepKeepsInv(chunks, info, header, s, events[0]);
      RunKeepsInv(chunks, info, header, Step(chunks, info, s, events[0]), events[1..]);
    }
  }

  /** `upload`: the session after the given events. The first frame is the header; then
      come the first `sent` chunks, each unchanged and in order, each reported as
      `[bytes sent before it, fileSize]`; the footer follows only once every chunk went
      out. A successful upload sent the footer and closed normally; a failed one closed
      with 4000 last. An upload that stopped before the footer throws the canceller's
      error; one that sent the footer settles with the server's reply. */
  function Upload(p: Primitives, chunks: seq<Chunk>, info: StreamInfo, metadata: seq<Byte>,
                  verifierB64: string, events: seq<Event>): (s: Session)
    ensures s.sent <= |chunks|
    ensures s.frames == [HeaderFrame(p, metadata, verifierB64)] + DataFrames(chunks[..s.sent])
                        + (if s.footerSent then [Footer] else [])
    ensures s.footerSent ==> s.sent == |chunks|
    ensures |s.progress| == s.sent
    ensures forall j :: 0 <= j < s.sent ==> s.progress[j] == (|Join(chunks[..j])|, info.fileSize)
    ensures s.phase.Finished? && s.phase.result.Success? ==>
      s.footerSent && |s.closes| >= 1 && s.closes[|s.closes| - 1] == None
    ensures s.phase.Finished? && s.phase.result.Failure? ==>
      |s.closes| >= 1 && s.closes[|s.closes| - 1] == Some(AbnormalClose)
    ensures s.phase.Finished? && s.phase.result.Failure? && !s.footerSent ==>
      s.canceller == Cancelled(s.phase.result.error)
    ensures s.phase.Finished? && s.footerSent ==> s.response == Some(s.phase.result)
  {
    var start := Start(p, metadata, verifierB64);
    assert Inv(chunks, info, HeaderFrame(p, metadata, verifierB64), start);
    RunKeepsInv(chunks, info, HeaderFrame(p, metadata, verifierB64), start, events);
    Run(chunks, info, start, events)
  }

  // ----- scenarios -----

  /** `n` reader results in a row. */
  function Reads(n: nat): (r: seq<Event>)
    ensures |r| == n && forall i :: 0 <= i < n ==> r[i] == Read
  {
    seq(n, _ => Read)
  }

  lemma {:induction false} RunAppend(chunks: seq<Chunk>, info: StreamInfo, s: Session, a: seq<Event>, b: seq<Event>)
    ensures Run(chunks, info, s, a + b) == Run(chunks, info, Run(chunks, info, s, a), b)
    decreases |a|
  {
    if |a| > 0 {
      assert (a + b)[0] == a[0] && (a + b)[1..] == a[1..] + b;
      RunAppend(chunks, info, Step(chunks, info, s, a[0]), a[1..], b);
    } else {
      assert a + b == b;
    }
  }

  /** A settled upload ignores whatever happens afterwards. */
  lemma {:induction false} FinishedIsFinal(chunks: seq<Chunk>, info: StreamInfo, s: Session, events: seq<Event>)
    requires s.phase.Finished?
    ensures Run(chunks, info, s, events) == s
    decreases |events|
  {
    if |events| > 0 {
      FinishedIsFinal(chunks, info, Step(chunks, info, s, events[0]), events[1..]);
    }
  }

  /** With nothing but reader results, the first `n` reads each send one chunk. */
  lemma {:induction false} ReadsSend(chunks: seq<Chunk>, info: StreamInfo, s: Session, n: nat)
    requires s.phase.Streaming? && s.canceller.Active? && s.sent + n <= |chunks|
    ensures var r := Run(chunks, info, s, Reads(n));
      && r.phase.Streaming? && r.canceller == s.canceller && r.sent == s.sent + n
      && r.response == s.response && r.closes == s.closes && r.footerSent == s.footerSent
    decreases n
  {
    if n > 0 {
      assert Reads(n)[1..] == Reads(n - 1);
      assert Run(chunks, info, s, Reads(n)) == Run(chunks, info, Step(chunks, info, s, Read), Reads(n - 1));
      ReadsSend(chunks, info, Step(chunks, info, s, Read), n - 1);
    }
  }

  /** Cancelling after `j` chunks went out, with more left: the next read throws
      `Error(0)`, nothing more is sent (no footer), the channel closes with 4000, and
      nothing afterwards changes that. */
  lemma CancelMidUpload(p: Primitives, chunks: seq<Chunk>, info: StreamInfo, metadata: seq<Byte>,
                        verifierB64: string, j: nat, rest: seq<Event>)
    requires j < |chunks|
    ensures var s := Upload(p, chunks, info, metadata, verifierB64, Reads(j) + [UserCancel, Read] + rest);
      && s.phase == Finished(Failure(Failed(0)))
      && s.sent == j && !s.footerSent
      && s.frames == [HeaderFrame(p, metadata, verifierB64)] + DataFrames(chunks[..j])
      && s.closes == [Some(AbnormalClose)]
  {
    var start := Start(p, metadata, verifierB64);
    ReadsSend(chunks, info, start, j);
    var mid := Run(chunks, info, start, Reads(j));
    RunAppend(chunks, info, start, Reads(j), [UserCancel, Read] + rest);
    assert Reads(j) + [UserCancel, Read] + rest == Reads(j) + ([UserCancel, Read] + rest);
    var afterCancel := Step(chunks, info, mid, UserCancel);
    var thrown := Step(chunks, info, afterCancel, Read);
    assert ([UserCancel, Read] + rest)[0] == UserCancel && ([UserCancel, Read] + rest)[1..] == [Read] + rest;
    assert ([Read] + rest)[0] == Read && ([Read] + rest)[1..] == rest;
    assert Run(chunks, info, mid, [UserCancel, Read] + rest) == Run(chunks, info, afterCancel, [Read] + rest);
    assert Run(chunks, info, afterCancel, [Read] + rest) == Run(chunks, info, thrown, rest);
    FinishedIsFinal(chunks, info, thrown, rest);
  }

  /** A cancel that arrives after the last chunk was read is never observed: the footer
      goes out and the upload awaits the server's reply. */
  lemma CancelAfterLastChunk(p: Primitives, chunks: seq<Chunk>, info: StreamInfo, metadata: seq<Byte>,
                             verifierB64: string)
    ensures var s := Upload(p, chunks, info, metadata, verifierB64, Reads(|chunks|) + [UserCancel, Read]);
      && s.phase == Awaiting && s.footerSent && s.sent == |chunks|
      && s.frames == [HeaderFrame(p, metadata, verifierB64)] + DataFrames(chunks) + [Footer]
      && s.closes == []
  {
    var start := Start(p, metadata, verifierB64);
    ReadsSend(chunks, info, start, |chunks|);
    RunAppend(chunks, info, start, Reads(|chunks|), [UserCancel, Read]);
    assert chunks[..|chunks|] == chunks;
  }

  /** The undisturbed upload: every chunk, the footer, then a good reply settles the
      upload with the destination and a normal close. */
  lemma CompleteUpload(p: Primitives, chunks: seq<Chunk>, info: StreamInfo, metadata: seq<Byte>,
                       verifierB64: string, url: string, id: string, owner: string)
    ensures var s := Upload(p, chunks, info, metadata, verifierB64,
                            Reads(|chunks| + 1) + [Incoming(Message(None, url, id, owner))]);
      && s.phase == Finished(Success(UploadResponse(url, id, owner)))
      && s.frames == [HeaderFrame(p, metadata, verifierB64)] + DataFrames(chunks) + [Footer]
      && s.closes == [None]
  {
    var start := Start(p, metadata, verifierB64);
    ReadsSend(chunks, info, start, |chunks|);
    assert Reads(|chunks| + 1) == Reads(|chunks|) + [Read];
    assert Reads(|chunks| + 1) + [Incoming(Message(None, url, id, owner))]
        == Reads(|chunks|) + [Read, Incoming(Message(None, url, id, owner))];
    var m := Incoming(Message(None, url, id, owner));
    RunAppend(chunks, info, start, Reads(|chunks|), [Read, m]);
    var mid := Run(chunks, info, start, Reads(|chunks|));
    var awaiting := Step(chunks, info, mid, Read);
    assert [Read, m][1..] == [m];
    assert Run(chunks, info, mid, [Read, m]) == Run(chunks, info, awaiting, [m]);
    assert Run(chunks, info, awaiting, [m]) == Step(chunks, info, awaiting, m);
    assert chunks[..|chunks|] == chunks;
  }

  /** A server error that arrives while chunks are still going out: the listener closes
      the channel and marks the canceller, the next read throws that error, no footer is
      sent, and the upload closes again with 4000. */
  lemma ServerErrorMidUpload(p: Primitives, chunks: seq<Chunk>, info: StreamInfo, metadata: seq<Byte>,
                             verifierB64: string, j: nat, err: string, rest: seq<Event>)
    requires j < |chunks| && err != ""
    ensures var s := Upload(p, chunks, info, metadata, verifierB64,
                            Reads(j) + [Incoming(Message(Some(err), "", "", "")), Read] + rest);
      && s.phase == Finished(Failure(ServerError(err)))
      && s.sent == j && !s.footerSent
      && s.closes == [None, Some(AbnormalClose)]
  {
    var start := Start(p, metadata, verifierB64);
    var m := Incoming(Message(Some(err), "", "", ""));
    ReadsSend(chunks, info, start, j);
    var mid := Run(chunks, info, start, Reads(j));
    RunAppend(chunks, info, start, Reads(j), [m, Read] + rest);
    assert Reads(j) + [m, Read] + rest == Reads(j) + ([m, Read] + rest);
    var heard := Step(chunks, info, mid, m);
    var thrown := Step(chunks, info, heard, Read);
    assert ([m, Read] + rest)[0] == m && ([m, Read] + rest)[1..] == [Read] + rest;
    assert ([Read] + rest)[0] == Read && ([Read] + rest)[1..] == rest;
    assert Run(chunks, info, mid, [m, Read] + rest) == Run(chunks, info, heard, [Read] + rest);
    assert Run(chunks, info, heard, [Read] + rest) == Run(chunks, info, thrown, rest);
    FinishedIsFinal(chunks, info, thrown, rest);
  }

  /** A channel that never delivers a reply leaves the upload awaiting forever: the
      response listener is the only way out once the footer is sent. */
  lemma NoReplyNeverSettles(p: Primitives, chunks: seq<Chunk>, info: StreamInfo, metadata: seq<Byte>,
                            verifierB64: string, n: nat)
    ensures Upload(p, chunks, info, metadata, verifierB64,
                   Reads(|chunks| + 1) + Reads(n)).phase == Awaiting
  {
    var start := Start(p, metadata, verifierB64);
    ReadsSend(chunks, info, start, |chunks|);
    assert Reads(|chunks| + 1) + Reads(n) == Reads(|chunks|) + ([Read] + Reads(n));
    RunAppend(chunks, info, start, Reads(|chunks|), [Read] + Reads(n));
    var awaiting := Step(chunks, info, Run(chunks, info, start, Reads(|chunks|)), Read);
    assert awaiting.phase == Awaiting;
    AwaitingIgnoresReads(chunks, info, awaiting, n);
  }

  lemma {:induction false} AwaitingIgnoresReads(chunks: seq<Chunk>, info: StreamInfo, s: Session, n: nat)
    requires s.phase.Awaiting?
    ensures Run(chunks, info, s, Reads(n)) == s
    decreases n
  {
    if n > 0 {
      assert Reads(n)[1..] == Reads(n - 1);
      AwaitingIgnoresReads(chunks, info, s, n - 1);
    }
  }
}
