# Send client core in Dafny

A model of the browser-side core of Send, an end-to-end encrypted file transfer
service. The model covers:

- **`blobStream`**: a pull controller that cuts a byte source into 64 KiB slices.
- **`concatStream`**: a pull controller that drains several input streams one after
  another.
- **`Archive`**: packs several files into one payload, with a total size, a manifest and
  a single byte stream.
- **`Keychain`**: a root secret, an IV and derived keys, the server-issued nonce with its
  guarded setter, the `send-v1` authorization header, and whole-blob AES-GCM encryption of
  files and metadata.
- **The network client**: nonce parsing, the authenticated fetch with a single retry, the
  WebSocket upload with cooperative cancellation, and the streamed and buffered downloads
  with their 401 retry.

The model is functional throughout:

- A stream controller is an immutable state with a `Pull` step, and `Drain` is everything
  the stream yields.
- The keychain is a record. Its setters return the updated record.
- Cryptography is symbolic. A key is the term naming its derivation, and a ciphertext is
  `Sealed(key, iv, plaintext)` over plaintext bytes. HMAC signing, base64 coding and the
  descriptor's JSON serialization and parsing are uninterpreted function parameters
  (`Keychains.Primitives`).
- The network is a function from (attempt number, Authorization value) to a reply.
- The upload is a state machine driven by a sequence of events: a reader result, a user
  `cancel()`, or a server message.

Files:

| file | module | content |
|---|---|---|
| `wrappers.dfy` | `Wrappers` | `Option`, `Result` |
| `common.dfy` | `Common` | bytes, chunks, `Join`, manifest entries, JavaScript truthiness, client errors |
| `blob_stream.dfy` | `BlobStream` | the slicer |
| `concat_stream.dfy` | `ConcatStream` | the concatenator |
| `archive.dfy` | `Archives` | the archive, and the descriptor it is given for metadata encryption |
| `keychain.dfy` | `Keychains` | the keychain, and file and metadata encryption |
| `auth.dfy` | `Auth` | `parseNonce`, `fetchWithAuth`, `fetchWithAuthAndRetry` |
| `downloader.dfy` | `Downloader` | `downloadS`, `tryDownloadStream`, `downloadStream`, `download`, `tryDownload`, `downloadFile` |
| `uploader.dfy` | `Uploader` | `listenForResponse`, `upload`, `uploadWs` and its `cancel` |

Behaviours of the code that the model keeps as written:

- **A 401 without a challenge header is retried.** `fetchWithAuth` sets `shouldRetry`
  when the status is 401 and the parsed nonce differs from the current one
  (app/api.js:26-27). A missing header parses to `undefined`, which always differs, so
  `fetchWithAuthAndRetry` sends the request again with the same Authorization value
  (app/api.js:34-35). See `Auth.RetryWithoutChallenge`.
- **A closed channel leaves the upload waiting.** The upload listens only for `message`
  events (app/api.js:108). When the channel closes before any reply, the promise awaited
  after the footer never settles (app/api.js:175). See `Uploader.NoReplyNeverSettles`.
- **The streamed download retries a 401 without comparing nonces.** It retries on any
  `Error('401')` while its counter allows (app/api.js:232-233), even when the challenge
  repeats the current nonce. See `Downloader.DownloadRetriesOnSameNonce`.
- **A cancelled streamed download looks like a failed transport.** An `AbortError` is
  rethrown as `Error('0')` (app/api.js:235-237), so a caller cannot tell it from a
  response with status 0.

## Model

| member | source | states |
|---|---|---|
| BlobStream.New | app/blobStream.js:2-6 | The cursor starts at 0. A missing or zero size falls back to 64 KiB, and any other size is kept, so the slice size is always positive. |
| BlobStream.Pull | app/blobStream.js:8-26 | A pull closes exactly when no byte is left. Otherwise it enqueues the next min(chunkSize, bytesLeft) bytes of the source and moves the cursor past them. The chunk is full unless it is the last one, and nothing else in the state changes. |
| BlobStream.Drain | app/blobStream.js:8-26 | The stream yields no chunk exactly when the cursor is already at or past the end of the source. |
| BlobStream.DrainCovers | app/blobStream.js:8-26 | The chunks a slicer yields until it closes rebuild the rest of the source. Each chunk is nonempty and at most the slice size, and every chunk but the last is exactly the slice size. |
| BlobStream.ReadAll | app/blobStream.js:29-31 | A consumer that reads the stream until it closes collects exactly the slicer's chunks, and their concatenation is the source. |
| BlobStream.DrainCount | app/blobStream.js:10-15 | A source with n bytes left yields ceil(n / chunkSize) chunks. |
| BlobStream.DrainChunkAt | app/blobStream.js:15-24 | Chunk k starts at lo = index + k·C, inside the source, and covers the source bytes [lo, min(lo + C, size)). |
| BlobStream.SlicerCoverage | app/blobStream.js:1-31 | For a fresh stream: chunk k is bytes [k·C, min((k+1)·C, size)), there are ceil(size / C) chunks, and together they are the source. |
| BlobStream.EmptySource | app/blobStream.js:10-13 | An empty source closes on the first pull and yields no chunk. |
| ConcatStream.Range | app/concatStream.js:9-12 | The indices lo to hi - 1, in order. These are the inputs opened so far. |
| ConcatStream.NextReader | app/concatStream.js:9-12 | The index always advances. The input at the old index becomes the reader and is recorded as opened. Past the end there is no reader and nothing new is opened. |
| ConcatStream.New | app/concatStream.js:2-7 | The constructor opens the first input, if there is one. The state is valid and its unread chunks are all the inputs' chunks in order. |
| ConcatStream.AdvanceKeepsUnread | app/concatStream.js:18-21 | Replacing an exhausted reader makes progress, keeps the state valid and loses no chunk. |
| ConcatStream.Pull | app/concatStream.js:14-24 | A pull closes exactly when nothing is left to read. Otherwise it enqueues the next chunk unchanged and removes exactly that chunk from what is left. At close every input has been opened once, in order, and no reader is open. |
| ConcatStream.Drain | app/concatStream.js:14-24 | Everything a valid state yields until it closes is exactly its unread chunks, in order. |
| ConcatStream.ConcatOutput | app/concatStream.js:1-29 | The output of the concatenator is the inputs' chunks flattened in input order. |
| ConcatStream.EmptyInputsSkipped | app/concatStream.js:18-21 | An exhausted input contributes nothing: removing an empty input leaves the output unchanged. |
| ConcatStream.NoInputs | app/concatStream.js:15-17 | With no inputs, the first pull closes the output. |
| Archives.Contents | app/archive.js:5-7 | The files' data, one entry per file and in order. |
| Archives.Size | app/archive.js:17-19 | The archive size is the length of all the files' bytes joined, and 0 for no files. |
| Archives.SizeOf | app/archive.js:18 | Summing the file sizes with `reduce` gives the length of the files' bytes joined. |
| Archives.ManifestEntries | app/archive.js:21-29 | One entry per file, in file order, copying each file's name, size and type. |
| Archives.ManifestSizes | app/archive.js:17-29 | The manifest's sizes add up to the archive size. |
| Archives.FileStreams | app/archive.js:31-33 | Each file becomes one slicer stream at the default chunk size, in file order. |
| Archives.Stream | app/archive.js:31-33 | The archive stream yields every file's slices, file after file, in file order. |
| Archives.JoinFileStreams | app/archive.js:31-33 | Slicing every file and joining the slices gives back the files' bytes. |
| Archives.StreamIsFilesInOrder | app/archive.js:31-33 | The archive stream carries the files' bytes concatenated in file order. Its length is the archive size, and no chunk is empty or larger than 64 KiB. |
| Keychains.Draw | app/keychain.js:12 | A random draw of `count` bytes has length `count`. |
| Keychains.New | app/keychain.js:7-77 | A falsy nonce falls back to the default nonce, and any other is kept. A supplied IV or secret is base64-decoded; otherwise the IV is 12 fresh bytes and the secret 16. The authentication key is derived from the secret under the label "authentication". |
| Keychains.EncryptKey | app/keychain.js:26-42 | The file key is an HKDF derivation of the root secret, distinct from the authentication key derived from it. |
| Keychains.MetaKey | app/keychain.js:43-59 | The metadata key is an HKDF derivation of the root secret, distinct from both the authentication key and the file key. |
| Keychains.SetNonce | app/keychain.js:83-87 | A falsy value leaves the keychain unchanged. A truthy value becomes the nonce and nothing else changes. A nonempty nonce stays nonempty. |
| Keychains.SetNonceIdempotent | app/keychain.js:83-87 | Setting a nonce twice equals setting it once, and setting the current nonce changes nothing. |
| Keychains.SetIv | app/keychain.js:89-91 | The IV becomes the decoded value and nothing else changes. |
| Keychains.SetPassword | app/keychain.js:93-115 | The authentication key becomes PBKDF2 of the password, salted with the share URL, with 100 iterations. Nothing else changes. |
| Keychains.SetAuthKey | app/keychain.js:117-128 | The authentication key becomes the decoded raw bytes imported as an HMAC key. Nothing else changes. |
| Keychains.AuthHeader | app/keychain.js:136-146 | The header is `send-v1 ` followed by the base64 HMAC, under the authentication key, of the decoded current nonce. |
| Keychains.AuthHeaderCredential | app/keychain.js:136-146 | A verifier recovers the signed nonce from the header. A setter call that ignores its value keeps the header. A truthy value makes the header sign that value. |
| Keychains.ZeroIv | app/keychain.js:167 | The metadata IV is 12 zero bytes. |
| Keychains.Open | app/keychain.js:204-230 | AES-GCM decryption succeeds exactly under the sealing key and IV and returns the sealed plaintext; otherwise it fails. |
| Keychains.DescriptorOf | app/keychain.js:172-178 | The descriptor carries the keychain IV in base64 and the given name and size. A missing type becomes `application/octet-stream` and a missing manifest becomes `{}`. |
| Keychains.EncryptMetadata | app/keychain.js:162-182 | The serialized descriptor is sealed under the metadata key with the all-zero IV. |
| Keychains.DecryptMetadata | app/keychain.js:218-230 | Decryption succeeds exactly when the ciphertext was sealed under this keychain's metadata key and the zero IV and its plaintext parses, and then returns the parsed descriptor. A wrong key or IV fails with the decryption error, and a plaintext that does not parse fails with the parse error. |
| Keychains.EncryptFile | app/keychain.js:148-160 | The bytes are sealed under the encryption key with the keychain IV. |
| Keychains.DecryptFile | app/keychain.js:204-216 | Decryption succeeds exactly when the ciphertext was sealed under this keychain's encryption key and IV, and then returns the sealed bytes; otherwise it fails with the decryption error. |
| Keychains.MetadataRoundTrip | app/keychain.js:162-230 | When parsing undoes serializing, a keychain with the sender's secret decrypts the sender's descriptor, whatever its IV or nonce. A keychain with a different secret fails with the decryption error. |
| Keychains.FileRoundTrip | app/keychain.js:148-216 | File decryption succeeds exactly when the receiver has the sender's secret and IV, and then returns the original bytes. |
| Keychains.KeysSeparated | app/keychain.js:26-59 | A metadata ciphertext never opens as a file and a file ciphertext never opens as metadata, even when the keychain IV is all zeros. Only the different HKDF labels keep the two apart. |
| Archives.ArchiveDescriptor | app/keychain.js:172-178 | An archive described for encryption keeps its name, its `send-archive` type and its manifest, and the manifest's sizes add up to the described size. |
| Auth.IndexOfSpace | app/api.js:15 | The position of the first space: the character there is a space and none comes before it. |
| Auth.Split | app/api.js:15 | `split(' ')` gives at least one piece, no piece holds a space, and a string without a space is one piece. |
| Auth.SplitUnsplit | app/api.js:15 | Splitting loses nothing: rejoining the pieces with spaces gives back the string. |
| Auth.ParseNonce | app/api.js:13-16 | A parsed nonce never contains a space. |
| Auth.ParseNonceFound | app/api.js:13-16 | A nonce is found exactly when the header is present, nonempty and holds a space. |
| Auth.ParseNonceOfChallenge | app/api.js:13-16 | The challenge `<scheme> <nonce>`, with or without further space-separated text, yields that nonce. |
| Auth.FetchWithAuth | app/api.js:18-30 | One request signed with the current nonce. A rejected fetch leaves the keychain unchanged. An answer sets `ok` exactly for a 2xx status and asks for a retry exactly on a 401 whose challenge nonce differs from the current one. The challenge nonce goes through the guarded setter. |
| Auth.RetryMeansFreshNonce | app/api.js:26-28 | A retry is asked for only on a 401. When the challenge carried a nonce, the keychain has moved to a different one. A 401 that repeats the current nonce leaves the keychain unchanged. |
| Auth.FetchWithAuthAndRetry | app/api.js:32-38 | One or two requests. The second is sent exactly when the first asked for a retry. It is signed with the keychain the first left behind, and its result is the call's result. |
| Auth.RetryWithNewNonce | app/api.js:32-38 | A 401 carrying a new nonce N2 is retried once, signing N2. A correctly authenticated retry succeeds. |
| Auth.NoRetryOnSameNonce | app/api.js:26-37 | A 401 that repeats the nonce just used is not retried. The call fails with that 401 and the keychain is unchanged. |
| Auth.RetryWithoutChallenge | app/api.js:26-35 | A 401 without a challenge is retried with the identical Authorization value. |
| Downloader.AfterChallenge | app/api.js:214-217 | The nonce is updated only when a challenge header is present, and then through the guarded setter. |
| Downloader.GuardedUpdateIsUnconditional | app/api.js:214-217 | Guarding the update on the header's presence is the same as the unguarded update in `fetchWithAuth`. |
| Downloader.DownloadS | app/api.js:205-225 | One signed request. A 200 returns the body, and any other status throws `Error(status)`. The challenge updates the nonce, and a rejected fetch propagates its error. |
| Downloader.TryDownloadStream | app/api.js:227-240 | At most max(1, tries) requests, the first signed with the current nonce. A second request is sent exactly when the first threw `Error('401')` and the counter allows a retry, and it signs the nonce the first left behind. A single request is `downloadS` with only an abort mapped to `Error('0')`. An abort is never rethrown as such. |
| Downloader.DownloadStream | app/api.js:242-251 | At most two requests. The second is sent exactly when the first threw `Error('401')`, and it signs the nonce the first left behind. Its outcome, with an abort mapped to `Error('0')`, is the call's outcome. |
| Downloader.DownloadRetriesOnSameNonce | app/api.js:232-233 | A 401 repeating the current nonce is retried by the streamed download, although `fetchWithAuthAndRetry` would not retry it. |
| Downloader.Reported | app/api.js:275-279 | At most one pair is forwarded per event. Nothing is forwarded when no event was computable and fired under status 200, and when every event was, every `[loaded, total]` pair is forwarded in order. |
| Downloader.ReportedAppend | app/api.js:275-279 | The listener handles events one at a time: the pairs forwarded for two runs of events are the first run's followed by the second's. |
| Downloader.ReportedOne | app/api.js:275-279 | One event is forwarded as its `[loaded, total]` pair exactly when its length is computable and the status was 200 when it fired. |
| Downloader.Download | app/api.js:255-287 | One signed request. The body comes back on 200, and `Error(status)` is thrown otherwise, with status 0 for an aborted request. The challenge updates the nonce. `[0, 1]` is reported first, followed by the pairs of the events forwarded. A request whose events never fired under status 200 reports nothing else. |
| Downloader.AbortedAfterProgress | app/api.js:257-279 | A 200 response that fired a computable event and then ended with status 0, by a cancel or a lost connection, reports `[0, 1]` and that event's pair, then throws `Error(0)`. |
| Downloader.TryDownload | app/api.js:289-299 | At most max(1, tries) requests, the first signed with the current nonce. A second request is sent exactly when the first failed with status 401 and the counter allows a retry, and it signs the nonce the first left behind. A single request is the call. The first request's reports come first, and the retry's reports start with its own `[0, 1]`. |
| Downloader.DownloadFile | app/api.js:301-312 | At most two requests. The second is sent exactly when the first failed with status 401. A single request is the call. After a retry, the call's outcome and keychain are the second request's, both Authorization values went out in order, and the progress is the first request's reports followed by the second's. |
| Uploader.Cancel | app/api.js:188-191 | `cancel()` marks the canceller cancelled with `Error(0)`. |
| Uploader.CancelIdempotent | app/api.js:188-191 | Cancelling twice equals cancelling once. |
| Uploader.ListenForResponse | app/api.js:106-128 | A malformed frame rejects with the parse error. A truthy `error` field rejects with that message. Anything else resolves with url, id and the owner token. |
| Uploader.OnMessage | app/api.js:106-128 | The response promise settles on the first message only. Every rejecting message closes the channel and stores its error in the canceller. An accepted message changes nothing else. |
| Uploader.DataFrames | app/api.js:157-171 | One binary frame per chunk, unchanged and in order. |
| Uploader.SendKeepsSent | app/api.js:157-167 | Sending the next chunk extends the record of what went out by that chunk's frame and its progress report `[bytes before it, fileSize]`. |
| Uploader.Settle | app/api.js:175-181 | The upload settles exactly when it is awaiting the reply and the response promise has settled. It then takes the promise's outcome, closing normally on success and with 4000 on failure. Nothing else changes. |
| Uploader.Step | app/api.js:154-173 | A settled upload ignores events. At most one chunk goes out per event, and only on a reader result while streaming with the canceller not cancelled. A reader result with chunks left while the canceller is cancelled throws the canceller's error, sends nothing and closes with 4000. Frames and closes are only ever appended, and a settled response promise stays as it is. |
| Uploader.StepKeepsInv | app/api.js:130-182 | Every event keeps the upload's invariant: the header, the chunks sent in order, the footer only after all chunks, consistent progress, and a close on every exit path. |
| Uploader.RunKeepsInv | app/api.js:130-182 | Any sequence of events keeps that invariant. |
| Uploader.Upload | app/api.js:130-182 | The header frame comes first. The first `sent` chunks follow, unchanged and in order, each reported as `[bytes before it, fileSize]`. The footer follows only after every chunk. A success sent the footer and then closed normally; a failure closed with 4000 last. A failure before the footer throws the canceller's error, and an upload that sent the footer settles with the response promise's outcome. |
| Uploader.HeaderFrame | app/api.js:144-148 | The header frame carries the metadata in base64, and its authorization is the verifier under the `send-v1` scheme. |
| Uploader.RunAppend | app/api.js:130-182 | Reacting to two event sequences in turn is reacting to their concatenation. |
| Uploader.FinishedIsFinal | app/api.js:175-181 | A settled upload ignores later events. |
| Uploader.ReadsSend | app/api.js:155-167 | While nothing is cancelled, each reader result sends one chunk and changes nothing else. |
| Uploader.CancelMidUpload | app/api.js:157-161 | A cancel after j chunks with more left throws `Error(0)` at the next read. No further chunk and no footer is sent, the channel closes with 4000, and later events change nothing. |
| Uploader.CancelAfterLastChunk | app/api.js:157-175 | A cancel after the last chunk is never observed. The footer goes out and the upload awaits the reply. |
| Uploader.CompleteUpload | app/api.js:143-177 | Without interference, every chunk and the footer go out. A good reply resolves the upload with its destination, and the channel closes normally. |
| Uploader.ServerErrorMidUpload | app/api.js:111-125 | A server error during streaming closes the channel and marks the canceller. The next read throws that error, no footer is sent, and the upload closes again with 4000. |
| Uploader.NoReplyNeverSettles | app/api.js:172-175 | Once the footer is sent, the upload stays waiting until a message arrives. |
| Uploader.AwaitingIgnoresReads | app/api.js:172-175 | While the upload waits for the reply, reader events change nothing. |

## Left out

- **Web Crypto.** HKDF, PBKDF2, HMAC and AES-GCM are symbolic terms, not byte-level algorithms. HMAC signing and base64 coding are uninterpreted parameters, and so is the randomness for the IV and the secret.
- **Record encryption.** `encryptStream` and `decryptStream` hand the secret to the record codec in `app/ece.js`, which is not part of this model.
- **JSON.** `JSON.stringify` and `JSON.parse` are not modelled. The descriptor's serialization and parsing are uninterpreted parameters, the upload's header frame is a structured value, and a server frame either parses to a message or is `Malformed`.
- **Backpressure.** The `bufferedAmount` polling loop with `delay()` only waits and sends nothing, so it is left out.
- **WebSocket opening.** `asyncInitWebSocket` and the page-derived URL are left out: the upload starts from an open channel.
- **Other endpoints.** `del`, `setParams`, `fileInfo` and the api `setPassword` are single requests, and `metadata` (app/api.js:67-87) goes through `fetchWithAuthAndRetry` and then decrypts. They add nothing beyond `Auth.FetchWithAuthAndRetry` and `Keychains.DecryptMetadata`, so they are left out.
- **`authKeyB64`.** It exports key bytes, which have no meaning in the symbolic key model.
- **Cancel wiring.** The `downloadFile` and `downloadStream` cancel callbacks are modelled by their effect: an aborted request answers status 0, or the fetch rejects with an abort.
- **Progress timing.** Each progress event carries the request's status at the moment it fired, as the listener reads it. The order of events relative to the `[0, 1]` report is fixed: the model reports `[0, 1]` first, as `send()` returns before any event fires.
- **Error messages.** Error identity is structural. `e.message === '401'` is read as `Failed(401)`, while a server message text of "401" is a different error.
- **Storage tests.** The server storage tests concern the backend and are not part of this model.
- **Stream and channel failures.** A rejected read is not modelled: neither the slicer's `reader.onerror` (app/blobStream.js:22), nor a rejected read of an input in the concatenator (app/concatStream.js:18), nor a rejected `reader.read()` in the upload (app/api.js:155, 167). Neither is a `ws.send` that throws and reaches the upload's `catch` (app/api.js:178-181). Every read in the model succeeds.
- **Concurrency.** Calls are serialized. Two requests sharing a keychain could interleave between signing (app/api.js:21) and the nonce comparison (app/api.js:27). The model's `shouldRetry` properties hold only when no other call changes the nonce in between.
- Keychains.Open: assumes ideal cryptography. Every key or IV other than the sealing ones is rejected, and HKDF derivations under different labels or secrets never collide. The different-secret half of `Keychains.MetadataRoundTrip`, the only-if half of `Keychains.FileRoundTrip` and `Keychains.KeysSeparated` rest on this.
- Downloader.TryDownloadStream: for more than two tries, the outcome of a retried call is not tied to the last request's outcome. `Downloader.DownloadStream` states that tie for the two tries the client uses.
- Downloader.TryDownload: for more than two tries, the outcome, keychain and reports of a retried call are tied only to the first request. `Downloader.DownloadFile` states the full tie for the two tries the client uses.
- Downloader.Reported: its own contract covers only the cases where no event or every event is forwarded; `Downloader.ReportedAppend` and `Downloader.ReportedOne` together fix the mixed case.
