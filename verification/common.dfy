/** Bytes, chunked streams, JavaScript truthiness and the errors the client throws. */
module Common {
  import opened Wrappers

  type Byte = bv8

  /** One `Uint8Array` enqueued on a stream. */
  type Chunk = seq<Byte>

  /** The elements of every inner sequence, end to end, in order. */
  function Join<T>(ss: seq<seq<T>>): seq<T>
  {
    if |ss| == 0 then [] else ss[0] + Join(ss[1..])
  }

  /** Joining distributes over concatenation of the outer sequence. */
  lemma {:induction false} JoinAppend<T>(a: seq<seq<T>>, b: seq<seq<T>>)
    ensures Join(a + b) == Join(a) + Join(b)
  {
    if |a| == 0 {
      assert a + b == b;
    } else {
      assert (a + b)[1..] == a[1..] + b;
      JoinAppend(a[1..], b);
    }
  }

  /** Appending one inner sequence appends its elements. */
  lemma JoinSnoc<T>(a: seq<seq<T>>, x: seq<T>)
    ensures Join(a + [x]) == Join(a) + x
  {
    JoinAppend(a, [x]);
    assert Join([x]) == x + Join<T>([]);
  }

  function Min(a: int, b: int): int
  {
    if a < b then a else b
  }

  lemma AppendAssoc<T>(a: seq<T>, b: seq<T>, c: seq<T>)
    ensures (a + b) + c == a + (b + c)
  {
  }

  /** One line of an archive's manifest: what the receiver is told about a file. */
  datatype Entry = Entry(name: string, size: nat, mimeType: string)

  /** JavaScript truthiness of a value that is a string or `undefined`:
      both `undefined` and the empty string are falsy. */
  predicate Truthy(s: Option<string>)
  {
    s.Some? && s.value != ""
  }

  /** The errors the client code throws or lets through. */
  datatype Error =
    | Failed(code: int)             // `new Error(code)`: its message is the decimal code
    | ServerError(message: string)  // `new Error(response.error)` from the upload endpoint
    | AbortError                    // a fetch interrupted through its AbortSignal
    | NetworkError                  // any other rejection of a fetch
    | ParseError                    // `JSON.parse` of a malformed frame
    | DecryptError                  // AES-GCM decryption whose tag did not verify
}
