/** The sequential concatenator: a pull controller that drains a list of input streams
    one after another, skipping exhausted ones. An input stream is modelled as the finite
    sequence of chunks its reader yields. */
module ConcatStream {
  import opened Wrappers
  import opened Common

  /** Controller state: the inputs, the index of the next input to open, the unread
      chunks of the open reader (None once the index has run past the last input), and
      the indices of the inputs opened so far, in opening order. */
  datatype Concat<T> = Concat(streams: seq<seq<T>>, index: nat, reader: Option<seq<T>>, openedInputs: seq<nat>)

  /** What one pull does: enqueue a chunk and move to `next`, or close in state `last`. */
  datatype Step<T> = Enqueue(chunk: T, next: Concat<T>) | Close(last: Concat<T>)

  /** The indices lo, lo + 1, ..., hi - 1. */
  function Range(lo: nat, hi: nat): (r: seq<nat>)
    ensures |r| == if lo <= hi then hi - lo else 0
    ensures forall i :: 0 <= i < |r| ==> r[i] == lo + i
    decreases hi - lo
  {
    if hi <= lo then [] else [lo] + Range(lo + 1, hi)
  }

  /** Every chunk the output still has to carry: the open reader's unread chunks, then
      every input not opened yet. */
  function Unread<T>(s: Concat<T>): seq<T>
  {
    (if s.reader.Some? then s.reader.value else []) + Join(s.streams[Min(s.index, |s.streams|)..])
  }

  /** The states the controller can reach: the constructor has opened a reader, a reader
      is open exactly while the index is within the inputs, and the inputs opened so far
      are 0, 1, ..., index - 1, each once and in order. */
  ghost predicate Valid<T>(s: Concat<T>)
  {
    && 1 <= s.index
    && (s.reader.Some? <==> s.index <= |s.streams|)
    && s.openedInputs == Range(0, Min(s.index, |s.streams|))
  }

  /** Inputs still to open, counting the open reader. */
  function Remaining<T>(s: Concat<T>): nat
  {
    (if s.reader.Some? then 1 else 0) + (if s.index < |s.streams| then |s.streams| - s.index else 0)
  }

  /** Unread chunks of the open reader. */
  function ReaderLength<T>(s: Concat<T>): nat
  {
    if s.reader.Some? then |s.reader.value| else 0
  }

  /** `nextReader`: take the input at the index (nothing past the end) and bump the index. */
  function NextReader<T>(s: Concat<T>): (r: Concat<T>)
    ensures r.streams == s.streams && r.index == s.index + 1
    ensures s.index < |s.streams| ==> r.reader == Some(s.streams[s.index]) && r.openedInputs == s.openedInputs + [s.index]
    ensures |s.streams| <= s.index ==> r.reader.None? && r.openedInputs == s.openedInputs
  {
    if s.index < |s.streams| then
      s.(index := s.index + 1, reader := Some(s.streams[s.index]), openedInputs := s.openedInputs + [s.index])
    else
      s.(index := s.index + 1, reader := None)
  }

  /** The constructor: open the first input, if any. */
  function New<T>(streams: seq<seq<T>>): (s: Concat<T>)
    ensures Valid(s)
    ensures s.streams == streams
    ensures Unread(s) == Join(streams)
  {
    var s := NextReader(Concat(streams, 0, None, []));
    assert Range(0, Min(s.index, |streams|)) == s.openedInputs;
    if |streams| == 0 then
      s
    else
      assert streams[1..] == streams[Min(s.index, |streams|)..];
      s
  }

  /** Advancing past an exhausted reader keeps the state valid and loses no chunk. */
  lemma AdvanceKeepsUnread<T>(s: Concat<T>)
    requires s.reader == Some([])
    ensures Remaining(NextReader(s)) < Remaining(s)
    ensures Valid(s) ==> Valid(NextReader(s)) && Unread(NextReader(s)) == Unread(s)
  {
    var n := |s.streams|;
    if !Valid(s) {
    } else if s.index < n {
      assert Range(0, s.index + 1) == Range(0, s.index) + [s.index] by {
        assert |Range(0, s.index + 1)| == |Range(0, s.index) + [s.index]|;
      }
      assert s.streams[s.index..][1..] == s.streams[s.index + 1..];
    } else {
      assert s.streams[Min(s.index, n)..] == [];
    }
  }

  /** One pull: an exhausted reader is replaced by the next input and the pull retried;
      a past-the-end reader closes the output; otherwise the next chunk is enqueued as is. */
  function Pull<T>(s: Concat<T>): (r: Step<T>)
    ensures r.Enqueue? ==> r.next.streams == s.streams
    ensures r.Enqueue? ==>
      || Remaining(r.next) < Remaining(s)
      || (Remaining(r.next) == Remaining(s) && ReaderLength(r.next) < ReaderLength(s))
    ensures Valid(s) ==> (r.Close? <==> Unread(s) == [])
    ensures Valid(s) && r.Enqueue? ==> Valid(r.next) && Unread(s) == [r.chunk] + Unread(r.next)
    ensures Valid(s) && r.Close? ==>
      && r.last.reader.None? && |s.streams| < r.last.index
      && r.last.openedInputs == Range(0, |s.streams|)
    decreases Remaining(s)
  {
    match s.reader
    case None => Close(s)
    case Some(unread) =>
      if |unread| == 0 then
        AdvanceKeepsUnread(s);
        Pull(NextReader(s))
      else
        Enqueue(unread[0], s.(reader := Some(unread[1..])))
  }

  /** Every chunk the output yields from state `s` until it closes. */
  function Drain<T>(s: Concat<T>): (out: seq<T>)
    ensures Valid(s) ==> out == Unread(s)
    decreases Remaining(s), ReaderLength(s)
  {
    match Pull(s)
    case Close(_) => []
    case Enqueue(c, next) => [c] + Drain(next)
  }

  /** The output is the inputs' chunks, flattened in input order, each chunk unchanged. */
  lemma ConcatOutput<T>(streams: seq<seq<T>>)
    ensures Drain(New(streams)) == Join(streams)
  {
  }

  /** An exhausted input contributes nothing: the output over the inputs with empty ones
      removed is the same. */
  lemma {:induction false} EmptyInputsSkipped<T>(a: seq<seq<T>>, b: seq<seq<T>>)
    ensures Drain(New(a + [[]] + b)) == Drain(New(a + b))
  {
    ConcatOutput(a + [[]] + b);
    ConcatOutput(a + b);
    JoinAppend(a + [[]], b);
    JoinSnoc(a, []);
    JoinAppend(a, b);
  }

  /** An empty list of inputs closes on the first pull. */
  lemma NoInputs<T>()
    ensures Pull(New<T>([])).Close?
    ensures Drain(New<T>([])) == []
  {
  }
}
