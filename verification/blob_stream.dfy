/** The chunk slicer: a pull controller that walks a byte source of known size in
    fixed-size slices, advancing one integer cursor. */
module BlobStream {
  import opened Wrappers
  import opened Common

  /** The slice size used when the caller gives none: 64 KiB. */
  const DefaultChunkSize: nat := 1024 * 64

  /** Controller state: the source, the cursor, and the slice size. */
  datatype Slicer = Slicer(blob: seq<Byte>, index: nat, chunkSize: nat)

  /** What one pull does: enqueue a chunk and move to `next`, or close the stream. */
  datatype Step = Enqueue(chunk: Chunk, next: Slicer) | Close

  /** The controller's constructor; a missing or zero size is falsy and falls back to
      the default. */
  function New(blob: seq<Byte>, size: Option<nat>): (s: Slicer)
    ensures s.blob == blob && s.index == 0 && s.chunkSize > 0
    ensures size.None? ==> s.chunkSize == DefaultChunkSize
    ensures size == Some(0) ==> s.chunkSize == DefaultChunkSize
    ensures size.Some? && size.value > 0 ==> s.chunkSize == size.value
  {
    Slicer(blob, 0, if size.Some? && size.value != 0 then size.value else DefaultChunkSize)
  }

  /** One pull: close once no byte is left, otherwise enqueue the next slice of at most
      `chunkSize` bytes and advance the cursor past it. */
  function Pull(s: Slicer): (r: Step)
    ensures r.Close? <==> |s.blob| <= s.index
    ensures r.Enqueue? ==> |r.chunk| == Min(s.chunkSize, |s.blob| - s.index)
    ensures r.Enqueue? ==>
      && r.next == s.(index := r.next.index)
      && r.next.index == s.index + |r.chunk| <= |s.blob|
      && r.chunk == s.blob[s.index..r.next.index]
    ensures r.Enqueue? && s.chunkSize > 0 ==> 0 < |r.chunk| <= s.chunkSize
    ensures r.Enqueue? ==> |r.chunk| == s.chunkSize || r.next.index == |s.blob|
  {
    var bytesLeft := |s.blob| - s.index;
    if bytesLeft <= 0 then
      Close
    else
      var size := Min(s.chunkSize, bytesLeft);
      Enqueue(s.blob[s.index..s.index + size], s.(index := s.index + size))
  }

  /** Every chunk the stream yields from state `s` until it closes: none exactly when the
      cursor is already at or past the end of the source. */
  function Drain(s: Slicer): (chunks: seq<Chunk>)
    requires s.chunkSize > 0
    ensures |chunks| == 0 <==> |s.blob| <= s.index
    decreases |s.blob| - s.index
  {
    match Pull(s)
    case Close => []
    case Enqueue(c, next) => [c] + Drain(next)
  }

  /** One pull's worth of `Drain`: nothing after a close, else the chunk then the rest. */
  lemma DrainUnfold(s: Slicer)
    requires s.chunkSize > 0
    ensures Pull(s).Close? ==> Drain(s) == []
    ensures Pull(s).Enqueue? ==> Drain(s) == [Pull(s).chunk] + Drain(Pull(s).next)
  {
  }

  /** The chunks a slicer yields until it closes rebuild the rest of the source; each is
      nonempty and at most the slice size, and all but the last are exactly that size. */
  lemma DrainCovers(s: Slicer)
    requires s.chunkSize > 0
    ensures Join(Drain(s)) == s.blob[Min(s.index, |s.blob|)..]
    ensures forall i :: 0 <= i < |Drain(s)| ==> 0 < |Drain(s)[i]| <= s.chunkSize
    ensures forall i :: 0 <= i < |Drain(s)| - 1 ==> |Drain(s)[i]| == s.chunkSize
  {
    DrainRebuilds(s);
    DrainChunkSizes(s);
  }

  lemma {:induction false} DrainRebuilds(s: Slicer)
    requires s.chunkSize > 0
    ensures Join(Drain(s)) == s.blob[Min(s.index, |s.blob|)..]
    decreases |s.blob| - s.index
  {
    DrainUnfold(s);
    match Pull(s)
    case Close =>
    case Enqueue(c, next) =>
      DrainRebuilds(next);
      var rest := Drain(next);
      assert ([c] + rest)[1..] == rest;
      assert Join([c] + rest) == c + Join(rest);
      assert s.blob[s.index..] == s.blob[s.index..next.index] + s.blob[next.index..];
  }

  lemma {:induction false} DrainChunkSizes(s: Slicer)
    requires s.chunkSize > 0
    ensures forall i :: 0 <= i < |Drain(s)| ==> 0 < |Drain(s)[i]| <= s.chunkSize
    ensures forall i :: 0 <= i < |Drain(s)| - 1 ==> |Drain(s)[i]| == s.chunkSize
    decreases |s.blob| - s.index
  {
    DrainUnfold(s);
    match Pull(s)
    case Close =>
    case Enqueue(c, next) =>
      DrainChunkSizes(next);
      var rest := Drain(next);
      forall i | 0 <= i < |Drain(s)|
        ensures 0 < |Drain(s)[i]| <= s.chunkSize
      {
        if i > 0 { assert Drain(s)[i] == rest[i - 1]; }
      }
      forall i | 0 <= i < |Drain(s)| - 1
        ensures |Drain(s)[i]| == s.chunkSize
      {
        if i > 0 {
          assert Drain(s)[i] == rest[i - 1];
        } else {
          DrainUnfold(next);
        }
      }
  }

  /** The consumer's read loop: pull until the stream closes, collecting every chunk. */
  method ReadAll(blob: seq<Byte>, size: Option<nat>) returns (chunks: seq<Chunk>)
    ensures chunks == Drain(New(blob, size))
    ensures Join(chunks) == blob
  {
    var s := New(blob, size);
    var step := Pull(s);
    chunks := [];
    while step.Enqueue?
      invariant s.blob == blob && s.chunkSize > 0
      invariant step == Pull(s)
      invariant chunks + Drain(s) == Drain(New(blob, size))
      decreases |blob| - s.index
    {
      DrainUnfold(s);
      AppendAssoc(chunks, [step.chunk], Drain(step.next));
      chunks := chunks + [step.chunk];
      s := step.next;
      step := Pull(s);
    }
    DrainUnfold(s);
    assert chunks == Drain(New(blob, size));
    DrainCovers(New(blob, size));
    assert blob[Min(0, |blob|)..] == blob;
  }

  /** Multiplying by a non-negative factor keeps the order. */
  lemma MulMonotone(a: int, b: int, c: int)
    requires c >= 0
    ensures a <= b ==> a * c <= b * c
  {
    assert b * c - a * c == (b - a) * c;
  }

  /** One more factor adds one multiplicand. */
  lemma MulAddOne(k: int, c: int)
    ensures (k + 1) * c == k * c + c
  {
  }

  /** The quotient is the unique q with q*c <= a < (q+1)*c. */
  lemma DivUnique(a: int, c: int, q: int)
    requires c > 0 && q * c <= a < q * c + c
    ensures a / c == q
  {
    var q' := a / c;
    assert a == q' * c + a % c;
    MulMonotone(q' + 1, q, c);
    MulMonotone(q + 1, q', c);
    assert (q' + 1) * c == q' * c + c;
    assert (q + 1) * c == q * c + c;
  }

  /** Adding one divisor adds one to the quotient. */
  lemma DivStep(x: nat, c: nat)
    requires c > 0
    ensures (x + c) / c == x / c + 1
  {
    var q := x / c;
    assert q * c <= x < q * c + c;
    assert (q + 1) * c == q * c + c;
    DivUnique(x + c, c, q + 1);
  }

  /** A source with `n` bytes left yields ceil(n / chunkSize) chunks. */
  lemma {:induction false} DrainCount(s: Slicer)
    requires s.chunkSize > 0 && s.index <= |s.blob|
    ensures |Drain(s)| == (|s.blob| - s.index + s.chunkSize - 1) / s.chunkSize
    decreases |s.blob| - s.index
  {
    var n := |s.blob| - s.index;
    var c := s.chunkSize;
    DivUnique(c - 1, c, 0);
    if n > 0 {
      var next := Pull(s).next;
      assert |Drain(s)| == 1 + |Drain(next)|;
      DrainCount(next);
      var m := |s.blob| - next.index;
      if n <= c {
        assert m == 0;
        DivUnique(n + c - 1, c, 1);
      } else {
        assert m == n - c;
        DivStep(m + c - 1, c);
      }
    }
  }

  /** Chunk k covers the source bytes [index + off, min(index + off + C, size)), where
      off = k*C is the offset of the chunk. */
  lemma {:induction false} DrainChunkAt(s: Slicer, k: nat, lo: nat)
    requires s.chunkSize > 0 && s.index <= |s.blob|
    requires k < |Drain(s)| && lo == s.index + k * s.chunkSize
    ensures lo < |s.blob|
    ensures Drain(s)[k] == s.blob[lo .. Min(lo + s.chunkSize, |s.blob|)]
    decreases k, 1
  {
    if k == 0 {
      assert lo == s.index;
      DrainUnfold(s);
      assert Pull(s).next.index == Min(s.index + s.chunkSize, |s.blob|);
      assert Drain(s)[k] == Pull(s).chunk;
    } else {
      DrainChunkLater(s, k, lo);
    }
  }

  /** The step of `DrainChunkAt`: chunk k of `s` is chunk k - 1 of the state after one
      pull, whose cursor sits one slice further on, so both start at the same offset. */
  lemma {:induction false} DrainChunkLater(s: Slicer, k: nat, lo: nat)
    requires s.chunkSize > 0 && s.index <= |s.blob|
    requires 0 < k < |Drain(s)| && lo == s.index + k * s.chunkSize
    ensures lo < |s.blob|
    ensures Drain(s)[k] == s.blob[lo .. Min(lo + s.chunkSize, |s.blob|)]
    decreases k, 0
  {
    var c := s.chunkSize;
    DrainUnfold(s);
    var next := Pull(s).next;
    assert next.blob == s.blob && next.chunkSize == c && next.index == s.index + c;
    assert Drain(s)[k] == Drain(next)[k - 1];
    MulAddOne(k - 1, c);
    DrainChunkAt(next, k - 1, lo);
  }

  /** The whole stream: chunk k of a fresh slicer covers [k*C, min((k+1)*C, size)), the
      chunks rebuild the source, and there are ceil(size / C) of them. */
  lemma SlicerCoverage(blob: seq<Byte>, size: Option<nat>)
    ensures var s := New(blob, size);
      && Join(Drain(s)) == blob
      && |Drain(s)| == (|blob| + s.chunkSize - 1) / s.chunkSize
      && forall k :: 0 <= k < |Drain(s)| ==>
           && k * s.chunkSize < |blob|
           && Drain(s)[k] == blob[k * s.chunkSize .. Min((k + 1) * s.chunkSize, |blob|)]
  {
    var s := New(blob, size);
    var c := s.chunkSize;
    DrainCount(s);
    DrainCovers(s);
    assert blob[Min(0, |blob|)..] == blob;
    forall k | 0 <= k < |Drain(s)|
      ensures k * c < |blob|
      ensures Drain(s)[k] == blob[k * c .. Min((k + 1) * c, |blob|)]
    {
      DrainChunkAt(s, k, k * c);
      MulAddOne(k, c);
    }
  }

  /** An empty source closes on the first pull and yields no chunk. */
  lemma EmptySource(size: Option<nat>)
    ensures Pull(New([], size)) == Close
    ensures Drain(New([], size)) == []
  {
  }
}
