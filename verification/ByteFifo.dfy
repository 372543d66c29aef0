/**
 The byte buffer between two threads, as values: a ring with a read and a write
 position that may each stand at either end of the storage, and a level that
 tells empty from full.
 */
module ByteFifo {
  import opened Common
  import opened Circular

  datatype Fifo = Fifo(data: seq<Byte>, rd: nat, wr: nat, level: nat)

  predicate Valid(b: Fifo) {
    && b.rd <= |b.data| && b.wr <= |b.data| && b.level <= |b.data|
    && Gap(|b.data|, b.rd, b.wr, b.level)
  }

  function Contents(b: Fifo): seq<Byte>
    requires Valid(b)
  {
    Span(b.data, b.rd, b.level)
  }

  /** `buf_get`. */
  function Get(b: Fifo, size: nat): (r: (Fifo, seq<Byte>))
    requires Valid(b)
  {
    if b.level == 0 then (b, [])
    else
      var n, len := |b.data|, Min(b.level, size);
      var rd := if b.wr > b.rd || len <= n - b.rd then b.rd + len else len - (n - b.rd);
      (b.(rd := rd, level := b.level - len), Taken(b.data, b.rd, len))
  }

  /** `buf_put`: the buffer afterwards and how many bytes it took. */
  function Put(b: Fifo, input: seq<Byte>): (r: (Fifo, nat))
    requires Valid(b)
  {
    var n := |b.data|;
    if b.level == n then (b, 0)
    else
      var len := Min(n - b.level, |input|);
      var wr := if b.wr < b.rd || len <= n - b.wr then b.wr + len else len - (n - b.wr);
      (b.(data := Laid(b.data, b.wr, input[..len]), wr := wr, level := b.level + len), len)
  }

  /** A get removes exactly the first bytes, as many as there are or are wanted. */
  lemma GetTakesFirst(b: Fifo, size: nat)
    requires Valid(b)
    ensures var (c, out) := Get(b, size);
            && Valid(c) && |c.data| == |b.data|
            && |out| == Min(b.level, size)
            && Contents(b) == out + Contents(c)
  {
    var (c, out) := Get(b, size);
    if b.level > 0 {
      TakenIsSpan(b.data, b.rd, |out|);
      SpanSplit(b.data, b.rd, c.rd, |out|, c.level);
    }
  }

  /** A put appends exactly the first bytes, as many as fit. */
  lemma PutAppends(b: Fifo, input: seq<Byte>)
    requires Valid(b)
    ensures var (c, len) := Put(b, input);
            && Valid(c) && |c.data| == |b.data|
            && len == Min(|b.data| - b.level, |input|)
            && Contents(c) == Contents(b) + input[..len]
  {
    var (c, len) := Put(b, input);
    if b.level < |b.data| {
      var part := input[..len];
      LaidReadsBack(b.data, b.wr, part);
      LaidKeepsOthers(b.data, b.wr, part, b.rd, b.level);
      SpanSplit(c.data, c.rd, b.wr, b.level, len);
    } else {
      assert Contents(b) + [] == Contents(b);
    }
  }

  // --------------------------------------------------- any sequence of calls

  datatype Call = PutCall(input: seq<Byte>) | GetCall(size: nat)

  /** What a bounded queue does on a call: contents after it, bytes handed out. */
  function Bounded(capacity: nat, q: seq<Byte>, call: Call): (seq<Byte>, seq<Byte>)
    requires |q| <= capacity
  {
    match call
    case PutCall(input) => (q + input[..Min(capacity - |q|, |input|)], [])
    case GetCall(size) => (q[Min(|q|, size)..], q[..Min(|q|, size)])
  }

  function CallOn(b: Fifo, call: Call): (Fifo, seq<Byte>)
    requires Valid(b)
  {
    match call
    case PutCall(input) => (Put(b, input).0, [])
    case GetCall(size) => Get(b, size)
  }

  /** The ring does on every call what a bounded queue of its capacity does. */
  lemma CallRefinesQueue(b: Fifo, call: Call)
    requires Valid(b)
    ensures var (c, out) := CallOn(b, call);
            && Valid(c) && |c.data| == |b.data|
            && (Contents(c), out) == Bounded(|b.data|, Contents(b), call)
  {
    match call
    case PutCall(input) => PutAppends(b, input);
    case GetCall(size) =>
      GetTakesFirst(b, size);
      var (c, out) := Get(b, size);
      assert (out + Contents(c))[..|out|] == out && (out + Contents(c))[|out|..] == Contents(c);
  }

  /** Bytes handed out by the ring, over a whole sequence of calls. */
  function RingRun(b: Fifo, calls: seq<Call>): seq<Byte>
    requires Valid(b)
    decreases |calls|
  {
    if calls == [] then []
    else
      CallRefinesQueue(b, calls[0]);
      var (c, out) := CallOn(b, calls[0]);
      out + RingRun(c, calls[1..])
  }

  function QueueRun(capacity: nat, q: seq<Byte>, calls: seq<Call>): seq<Byte>
    requires |q| <= capacity
    decreases |calls|
  {
    if calls == [] then []
    else
      var (r, out) := Bounded(capacity, q, calls[0]);
      out + QueueRun(capacity, r, calls[1..])
  }

  lemma {:induction false} RingIsAQueue(b: Fifo, calls: seq<Call>)
    requires Valid(b)
    ensures RingRun(b, calls) == QueueRun(|b.data|, Contents(b), calls)
    decreases |calls|
  {
    if calls != [] {
      CallRefinesQueue(b, calls[0]);
      RingIsAQueue(CallOn(b, calls[0]).0, calls[1..]);
    }
  }
}
