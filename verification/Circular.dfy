/**
 Circular storage as the player's two byte rings use it: positions range over
 0..N inclusive, where 0 and N name the same place, and a separate counter says
 how many bytes lie between two positions.
 */
module Circular {

  type Byte = bv8

  /** The storage index of the i-th byte from position `from`. */
  function Slot(n: nat, from: nat, i: nat): (k: nat)
    requires from <= n && i < n
    ensures k < n
    ensures k == from + i || k == from + i - n
  {
    if from + i < n then from + i else from + i - n
  }

  /** The `len` bytes that follow position `from` on the ring. */
  function Span(data: seq<Byte>, from: nat, len: nat): (s: seq<Byte>)
    requires from <= |data| && len <= |data|
    ensures |s| == len
  {
    seq(len, i requires 0 <= i < len => data[Slot(|data|, from, i)])
  }

  /** `d` bytes lie from position `a` forward to position `b`; when the positions
      coincide the ring is empty or full between them and only `d` can tell. */
  predicate Gap(n: nat, a: int, b: int, d: int) {
    && (a < b ==> d == b - a)
    && (b < a ==> d == b - a + n)
    && (a == b ==> d == 0 || d == n)
  }

  /** Position `b` is `d` bytes after `a`, up to the aliasing of 0 and n. */
  predicate After(n: nat, a: nat, b: nat, d: nat) {
    b == a + d || b == a + d - n
  }

  lemma SpanSplit(data: seq<Byte>, from: nat, mid: nat, first: nat, second: nat)
    requires from <= |data| && mid <= |data| && first + second <= |data|
    requires After(|data|, from, mid, first)
    ensures Span(data, from, first + second) == Span(data, from, first) + Span(data, mid, second)
  {
    var whole := Span(data, from, first + second);
    var parts := Span(data, from, first) + Span(data, mid, second);
    forall i | 0 <= i < first + second
      ensures whole[i] == parts[i]
    {
      if i >= first {
        assert Slot(|data|, from, i) == Slot(|data|, mid, i - first);
      }
    }
  }

  /** `len` bytes from position `from`, copied in one piece or in two. */
  function Taken(data: seq<Byte>, from: nat, len: nat): (s: seq<Byte>)
    requires from <= |data| && len <= |data|
    ensures |s| == len
  {
    if from + len <= |data| then data[from..from + len]
    else data[from..] + data[..from + len - |data|]
  }

  lemma TakenIsSpan(data: seq<Byte>, from: nat, len: nat)
    requires from <= |data| && len <= |data|
    ensures Taken(data, from, len) == Span(data, from, len)
  {
    var s, t := Taken(data, from, len), Span(data, from, len);
    forall i | 0 <= i < len ensures s[i] == t[i] {
    }
  }

  /** `data` with `input` laid down from position `at`, going round the end. */
  function Laid(data: seq<Byte>, at: nat, input: seq<Byte>): (r: seq<Byte>)
    requires at <= |data| && |input| <= |data|
    ensures |r| == |data|
  {
    if at + |input| <= |data| then
      data[..at] + input + data[at + |input|..]
    else
      var tail := |data| - at;
      input[tail..] + data[|input| - tail..at] + input[..tail]
  }

  lemma LaidReadsBack(data: seq<Byte>, at: nat, input: seq<Byte>)
    requires at <= |data| && |input| <= |data|
    ensures Span(Laid(data, at, input), at, |input|) == input
  {
    var s := Span(Laid(data, at, input), at, |input|);
    forall i | 0 <= i < |input| ensures s[i] == input[i] {
    }
  }

  /** Bytes outside the stretch just laid down are untouched. */
  lemma LaidKeepsOthers(data: seq<Byte>, at: nat, input: seq<Byte>, from: nat, len: nat)
    requires at <= |data| && from <= |data| && len + |input| <= |data|
    requires After(|data|, from, at, len)
    ensures Span(Laid(data, at, input), from, len) == Span(data, from, len)
  {
    var s, t := Span(Laid(data, at, input), from, len), Span(data, from, len);
    forall i | 0 <= i < len ensures s[i] == t[i] {
    }
  }

  /** `data` with `part` laid down from position `at`, all of it in front of the end. */
  function Overlaid(data: seq<Byte>, at: nat, part: seq<Byte>): (r: seq<Byte>)
    requires at + |part| <= |data|
    ensures |r| == |data|
  {
    data[..at] + part + data[at + |part|..]
  }

  method Put(data: array<Byte>, at: nat, part: seq<Byte>)
    requires at + |part| <= data.Length
    modifies data
    ensures data[..] == Overlaid(old(data[..]), at, part)
  {
    forall i | 0 <= i < |part| {
      data[at + i] := part[i];
    }
  }

  /** Copy the `len` bytes that follow `from` to the start of `out`, in one piece
      or in two. */
  method CopyOut(data: array<Byte>, from: nat, out: array<Byte>, len: nat)
    requires from <= data.Length && len <= data.Length && len <= out.Length && out != data
    modifies out
    ensures out[..] == Taken(data[..], from, len) + old(out[..])[len..]
  {
    hide Overlaid, Taken;
    var first := if from + len <= data.Length then len else data.Length - from;
    TakenInTwo(data[..], from, len, out[..]);
    Put(out, 0, data[from..from + first]);
    Put(out, first, data[..len - first]);
  }

  lemma TakenInTwo(data: seq<Byte>, from: nat, len: nat, out: seq<Byte>)
    requires from <= |data| && len <= |data| && len <= |out|
    ensures var first := if from + len <= |data| then len else |data| - from;
            var front := Overlaid(out, 0, data[from..from + first]);
            Overlaid(front, first, data[..len - first]) == Taken(data, from, len) + out[len..]
  {
  }

  /** Copy `input` into the storage from position `at`, in one piece or in two. */
  method CopyIn(data: array<Byte>, at: nat, input: seq<Byte>)
    requires at <= data.Length && |input| <= data.Length
    modifies data
    ensures data[..] == Laid(old(data[..]), at, input)
  {
    hide Overlaid, Laid;
    var first := if at + |input| <= data.Length then |input| else data.Length - at;
    LaidInTwo(data[..], at, input);
    Put(data, at, input[..first]);
    Put(data, 0, input[first..]);
  }

  lemma LaidInTwo(data: seq<Byte>, at: nat, input: seq<Byte>)
    requires at <= |data| && |input| <= |data|
    ensures var first := if at + |input| <= |data| then |input| else |data| - at;
            Overlaid(Overlaid(data, at, input[..first]), 0, input[first..]) == Laid(data, at, input)
  {
  }
}
