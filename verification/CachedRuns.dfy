/**
 Runs of the cached stream: what a reader can be brought to see by a seek that is
 not good.  Each holds for every source, every size of the ring and both ways of
 writing the cache.
 */
module CachedRuns {
  import opened Common
  import opened Circular
  import opened CacheRing
  import opened CachedStream

  ghost predicate Reachable(src: seq<Byte>, mode: Mode, t: Sys) {
    exists states, steps :: Run(src, mode, states, steps) && states[|steps|] == t
  }

  /** Reachable by one step more. */
  lemma Then(src: seq<Byte>, mode: Mode, s: Sys, step: Step) returns (t: Sys)
    requires Reachable(src, mode, s) && Enabled(src, s, step)
    ensures t == Apply(src, mode, s, step) && Reachable(src, mode, t)
  {
    hide Apply, Enabled, Init;
    t := Apply(src, mode, s, step);
    var states, steps :| Run(src, mode, states, steps) && states[|steps|] == s;
    var moreStates, moreSteps := states + [t], steps + [step];
    forall i | 0 <= i < |moreSteps|
      ensures Enabled(src, moreStates[i], moreSteps[i])
      ensures moreStates[i + 1] == Apply(src, mode, moreStates[i], moreSteps[i])
    {
      if i < |steps| {
        assert moreStates[i] == states[i] && moreStates[i + 1] == states[i + 1];
      }
    }
    assert moreStates[|moreSteps|] == t;
  }

  lemma InitReachable(src: seq<Byte>, mode: Mode, s: Sys)
    requires Init(s)
    ensures Reachable(src, mode, s)
  {
    var states, steps: seq<Step> := [s], [];
    assert Run(src, mode, states, steps) && states[|steps|] == s;
  }

  /** The fill thread runs and has nothing in hand; no seek is under way. */
  predicate Quiet(s: Sys) {
    s.flag.NoFlag? && s.status.Running? && s.fill.Head? && s.tmp == [] && s.reader.Ready?
  }

  predicate EmptyRing(c: Ring) {
    c == Reset(c) && c.fixPreSize < |c.data|
  }

  lemma Started(src: seq<Byte>, mode: Mode, s: Sys) returns (t: Sys)
    requires Init(s)
    ensures Reachable(src, mode, t) && Quiet(t) && t == s.(status := Running, reader := Ready)
  {
    InitReachable(src, mode, s);
    t := Then(src, mode, s, Reader(true));
  }

  /** The fill thread brings the next byte of the real stream into an empty cache,
      and that is the byte the reader gets, wherever it takes itself to be. */
  lemma NextByteArrives(src: seq<Byte>, mode: Mode, s: Sys) returns (t: Sys)
    requires Reachable(src, mode, s) && Quiet(s) && EmptyRing(s.ring) && 0 <= s.realPos < |src|
    ensures Reachable(src, mode, t) && Quiet(t) && Enabled(src, t, Read(1))
    ensures EventOf(src, t, Read(1)) == FileRead([src[s.realPos]])
    ensures t.curPos == s.curPos && t.realPos == s.realPos + 1 && t.ring.level == 1
    ensures Window(t.ring)
  {
    hide Reachable, Window, Write, WriteMeant, WriteInside, CacheRing.Read, ReadInside;
    var byte := [src[s.realPos]];
    ByteFits(mode, s.ring, byte);
    t := Then(src, mode, s, Fill(0, false));
    t := Then(src, mode, t, Fill(0, false));
    t := Then(src, mode, t, Fill(0, false));
    t := Then(src, mode, t, Fill(1, false));
    assert src[s.realPos..s.realPos + 1] == byte;
    t := Then(src, mode, t, Fill(0, false));
  }

  lemma ByteFits(mode: Mode, c: Ring, byte: seq<Byte>)
    requires EmptyRing(c) && |byte| == 1
    ensures Space(c) >= 1 && WriteInside(c, 1)
    ensures var d := WriteBy(mode, c, byte);
            Window(d) && d.level == 1 && ReadInside(d, 1) && CacheRing.Read(d, 1).1 == byte
  {
    hide Write, WriteMeant, CacheRing.Read, WriteHazard, Span;
    EmptyWindow(c, 1);
    WriteMovesHeld(c, byte);
    WriteMeantMovesWindow(c, byte);
    ReadMovesWindow(WriteBy(mode, c, byte), 1);
  }

  lemma EmptyWindow(c: Ring, len: nat)
    requires EmptyRing(c) && len > 0
    ensures Window(c) && Space(c) >= 1 && !WriteHazard(c, len)
    ensures Pending(c) == []
  {
  }

  // --------------------------------------------------------- the fill thread's turns

  function Fills(src: seq<Byte>, mode: Mode, s: Sys, n: nat): Sys
    decreases n
  {
    if n == 0 || !Enabled(src, s, Fill(0, false)) then s
    else Fills(src, mode, FillStep(src, mode, s, 0, false), n - 1)
  }

  /** A fetch that brings nothing leaves everything as it was. */
  lemma NothingFetched(src: seq<Byte>, mode: Mode, s: Sys)
    requires Quiet(s) && 0 <= Space(s.ring) && WriteInside(s.ring, 0)
    ensures Fills(src, mode, s, 5) == s
  {
    hide Fills, Write, WriteMeant;
    EmptyWrite(mode, s.ring);
    FillOnce(src, mode, s, 4);
    var s1 := s.(fill := TestIdle);
    FillOnce(src, mode, s1, 3);
    var s2 := s.(fill := TestPaused);
    FillOnce(src, mode, s2, 2);
    var s3 := s.(fill := Fetch);
    FillOnce(src, mode, s3, 1);
    var s4 := s.(fill := Put);
    FillOnce(src, mode, s4, 0);
    FillNone(src, mode, s);
  }

  lemma FillOnce(src: seq<Byte>, mode: Mode, s: Sys, n: nat)
    requires Enabled(src, s, Fill(0, false))
    ensures Fills(src, mode, s, n + 1) == Fills(src, mode, FillStep(src, mode, s, 0, false), n)
  {
    hide Enabled, FillStep;
  }

  lemma FillNone(src: seq<Byte>, mode: Mode, s: Sys)
    ensures Fills(src, mode, s, 0) == s
  {
  }

  lemma EmptyWrite(mode: Mode, c: Ring)
    requires 0 <= Space(c) && WriteInside(c, 0)
    ensures WriteBy(mode, c, []) == c
  {
  }

  /** Bytes for which the cache has no room are kept and offered again, turn after turn. */
  lemma FullCacheWaits(src: seq<Byte>, mode: Mode, s: Sys)
    requires s.flag.NoFlag? && s.status.Running? && s.fill.Put? && s.tmp != [] && Space(s.ring) < |s.tmp|
    ensures Fills(src, mode, s, 4) == s
  {
    hide Fills;
    FillOnce(src, mode, s, 3);
    FillOnce(src, mode, s.(fill := Head), 2);
    FillOnce(src, mode, s.(fill := TestIdle), 1);
    FillOnce(src, mode, s.(fill := TestPaused), 0);
    FillNone(src, mode, s);
  }

  /** At the end of the stream the thread says so, turns idle, and then does nothing;
      a seek that misses the cache sets it going again (see `MissedSeek`). */
  lemma EndOfStreamIdles(src: seq<Byte>, mode: Mode, s: Sys, n: nat)
    requires s.fill.Fetch? && s.tmp == []
    ensures var t := s.(flag := EofFlag, status := Idle, fill := Head);
            && FillStep(src, mode, FillStep(src, mode, FillStep(src, mode, s, n, true), n, true), n, true) == t
            && FillStep(src, mode, FillStep(src, mode, t, n, true), n, true) == t
  {
  }

  /** A seek the cache misses, with the whole of the pause protocol: the reader
      ends up at its target with an empty cache, the real stream where the real
      seek has left it. */
  lemma MissedSeek(src: seq<Byte>, mode: Mode, s: Sys, pos: int, whence: Whence, ok: bool) returns (t: Sys)
    requires Reachable(src, mode, s) && s.fill.Head? && s.tmp == [] && s.reader.Ready?
    requires Window(s.ring) && !TrySeek(s, pos, whence).0
    requires ok ==> 0 <= (if whence.SeekSet? then pos else s.realPos + pos)
    ensures Reachable(src, mode, t) && Quiet(t) && EmptyRing(t.ring)
    ensures t.curPos == Target(s, pos, whence)
    ensures t.realPos == if !ok then s.realPos else if whence.SeekSet? then pos else s.realPos + pos
  {
    hide Reachable, Window, TrySeek, Reset;
    t := Then(src, mode, s, BeginSeek(pos, whence));
    t := Then(src, mode, t, Reader(ok));
    t := PauseTaken(src, mode, t);
    t := Then(src, mode, t, Reader(ok));
    EmptiedRing(t.ring);
    t := Repositioned(src, mode, t, ok);
  }

  /** What a missed seek does once the fill thread is idle. */
  lemma Repositioned(src: seq<Byte>, mode: Mode, s: Sys, ok: bool) returns (t: Sys)
    requires Reachable(src, mode, s) && s.reader.DropFlag? && s.fill.Head? && s.tmp == []
    requires ok ==> 0 <= (if s.whence.SeekSet? then s.want else s.realPos + s.want)
    ensures Reachable(src, mode, t) && Quiet(t) && t.ring == Reset(s.ring)
    ensures t.curPos == Target(s, s.want, s.whence)
    ensures t.realPos == if !ok then s.realPos else if s.whence.SeekSet? then s.want else s.realPos + s.want
  {
    hide Reachable, Reset;
    t := Then(src, mode, s, Reader(ok));
    t := Then(src, mode, t, Reader(ok));
    t := Then(src, mode, t, Reader(ok));
    t := Then(src, mode, t, Reader(ok));
    t := Then(src, mode, t, Reader(ok));
    t := Then(src, mode, t, Reader(ok));
  }

  lemma EmptiedRing(c: Ring)
    requires Window(c)
    ensures EmptyRing(Reset(c))
  {
  }

  /** The fill thread acknowledges a pause. */
  lemma PauseTaken(src: seq<Byte>, mode: Mode, s: Sys) returns (t: Sys)
    requires Reachable(src, mode, s) && s.flag.PauseFlag? && s.fill.Head? && s.tmp == []
    ensures Reachable(src, mode, t) && t == s.(flag := NoFlag, status := Idle)
  {
    hide Reachable;
    t := Then(src, mode, s, Fill(0, false));
    t := Then(src, mode, t, Fill(0, false));
    t := Then(src, mode, t, Fill(0, false));
    t := Then(src, mode, t, Fill(0, false));
    t := Then(src, mode, t, Fill(0, false));
    t := Then(src, mode, t, Fill(0, false));
  }

  /** A seek over 2^32 bytes counts as a seek over none: the empty cache serves it,
      and at that offset the reader gets the first byte of the source. */
  lemma LongSeekRun(src: seq<Byte>, mode: Mode, s: Sys)
    requires Init(s) && src != []
    ensures exists t :: Reachable(src, mode, t) && Enabled(src, t, Read(1))
                        && t.curPos == 0x1_0000_0000 && EventOf(src, t, Read(1)) == FileRead([src[0]])
  {
    hide Reachable, EventOf;
    var t := Started(src, mode, s);
    assert TrySeek(t, 0x1_0000_0000, SeekSet) == (true, t.ring);
    t := Then(src, mode, t, BeginSeek(0x1_0000_0000, SeekSet));
    t := NextByteArrives(src, mode, t);
  }

  /** A seek to the end of the source that the real stream refuses: the reader takes
      itself to be there and gets the first byte. */
  lemma FailedSeekRun(src: seq<Byte>, mode: Mode, s: Sys)
    requires Init(s) && 0 < |src| < 0x8000_0000
    ensures exists t :: Reachable(src, mode, t) && Enabled(src, t, Read(1))
                        && t.curPos == |src| && EventOf(src, t, Read(1)) == FileRead([src[0]])
  {
    hide Reachable, EventOf;
    var t := Started(src, mode, s);
    assert !TrySeek(t, |src|, SeekSet).0;
    EmptyWindow(t.ring, 1);
    t := MissedSeek(src, mode, t, |src|, SeekSet, false);
    t := NextByteArrives(src, mode, t);
  }

  /** A relative seek forward that misses, with one byte fetched ahead: the reader
      gets the byte behind the one at its position. */
  lemma RelativeSeekRun(src: seq<Byte>, mode: Mode, s: Sys, k: nat)
    requires Init(s) && 2 <= k < |src| - 1 && k < 0x8000_0000
    ensures exists t :: Reachable(src, mode, t) && Enabled(src, t, Read(1))
                        && t.curPos == k && EventOf(src, t, Read(1)) == FileRead([src[k + 1]])
  {
    hide Reachable, EventOf;
    var t := Started(src, mode, s);
    t := NextByteArrives(src, mode, t);
    assert !TrySeek(t, k, SeekCur).0;
    t := MissedSeek(src, mode, t, k, SeekCur, true);
    t := NextByteArrives(src, mode, t);
  }
}
