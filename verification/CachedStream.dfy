/**
 The cached stream as two threads see it: the fill thread that fetches from the
 real stream and writes the cache, and the reader that reads, seeks inside the
 cache and falls back to the real stream.

 A step is one access to shared data: a thread flag, the status, one operation
 of the locked cache, or one call into the real stream.  The only coarser step
 is the fill thread's space test together with the write it guards.
 */
module CachedStream {
  import opened Common
  import opened Circular
  import opened CacheRing

  datatype Whence = SeekSet | SeekCur

  datatype Flag = NoFlag | PauseFlag | EofFlag

  datatype Status = Idle | Paused | Running

  /** Where the fill thread is in its loop. */
  datatype FillPc =
    | Head          // about to test the flag
    | MarkPaused    // saw the pause flag, about to set the status
    | TestIdle      // about to test the status for idle
    | TestPaused    // about to test the status for paused
    | LowerFlag     // dropped its bytes, about to clear the flag
    | MarkIdle      // about to set the status to idle
    | Fetch         // about to read the real stream
    | MarkEof       // saw the end, about to set the flag
    | MarkEofIdle   // about to set the status to idle
    | Put           // about to write the cache

  /** Where the reader is; everything after `Ready` is a seek the cache missed. */
  datatype ReaderPc =
    | Starting | Ready
    | RaiseFlag | AwaitIdle | DropFlag | RealSeek | ResetCache | ResumeFlag | ResumeStatus | SetPos

  /** Whether the cache is written by the C code or as its layout comment means. */
  datatype Mode = AsWritten | AsMeant

  datatype Sys = Sys(
    ring: Ring,
    flag: Flag,
    status: Status,
    fill: FillPc,
    tmp: seq<Byte>,     // fetched and not yet written
    tmpEpoch: nat,      // cache resets before tmp was fetched
    realPos: int,       // position of the real stream
    reader: ReaderPc,
    want: int,          // arguments of the seek under way
    whence: Whence,
    curPos: int,        // position the reader is told
    epoch: nat          // cache resets so far
  )

  datatype Step =
    | Fill(fetched: nat, eof: bool)            // the fill thread's next access
    | Read(size: nat)
    | BeginSeek(pos: int, from: Whence)
    | Reader(seekOk: bool)                     // the reader's next access in a missed seek

  const READ_PER_TIME: nat := 10240

  function Int32(x: int): int {
    (x + 0x8000_0000) % 0x1_0000_0000 - 0x8000_0000
  }

  /** `abs` of a 64-bit difference, through the `int` that `abs` takes. */
  function Step32(x: int): int {
    var t := Int32(x);
    if t < 0 && t != -0x8000_0000 then -t else t
  }

  function Target(s: Sys, pos: int, whence: Whence): int {
    if whence.SeekSet? then pos else s.curPos + pos
  }

  /** The cache's attempt at a seek. */
  function TrySeek(s: Sys, pos: int, whence: Whence): (bool, Ring) {
    var distance := Target(s, pos, whence) - s.curPos;
    Seek(s.ring, Step32(if whence.SeekSet? then -distance else distance), distance >= 0)
  }

  function WriteBy(mode: Mode, c: Ring, input: seq<Byte>): Ring
    requires WriteInside(c, |input|)
  {
    if mode.AsWritten? then Write(c, input) else WriteMeant(c, input)
  }

  predicate Enabled(src: seq<Byte>, s: Sys, step: Step) {
    match step
    case Fill(n, eof) =>
      && (s.fill.Fetch? && !eof ==> n <= READ_PER_TIME && (n == 0 || 0 <= s.realPos <= s.realPos + n <= |src|))
      && (s.fill.Put? && |s.tmp| <= Space(s.ring) ==> WriteInside(s.ring, |s.tmp|))
    case Read(size) => s.reader.Ready? && ReadInside(s.ring, size)
    case BeginSeek(_, _) => s.reader.Ready?
    case Reader(ok) =>
      && !s.reader.Ready?
      && (s.reader.RealSeek? && ok ==> 0 <= (if s.whence.SeekSet? then s.want else s.realPos + s.want))
  }

  function FillStep(src: seq<Byte>, mode: Mode, s: Sys, n: nat, eof: bool): Sys
    requires Enabled(src, s, Fill(n, eof))
  {
    match s.fill
    case Head => s.(fill := if s.flag.PauseFlag? then MarkPaused else TestIdle)
    case MarkPaused => s.(status := Paused, fill := TestIdle)
    case TestIdle => s.(fill := if s.status.Idle? then Head else TestPaused)
    case TestPaused =>
      if s.status.Paused? then s.(tmp := [], fill := LowerFlag)
      else s.(fill := if s.tmp == [] then Fetch else Put)
    case LowerFlag => s.(flag := NoFlag, fill := MarkIdle)
    case MarkIdle => s.(status := Idle, fill := Head)
    case Fetch =>
      if eof then s.(fill := MarkEof)
      else if n == 0 then s.(fill := Put)
      else s.(tmp := src[s.realPos..s.realPos + n], tmpEpoch := s.epoch, realPos := s.realPos + n, fill := Put)
    case MarkEof => s.(flag := EofFlag, fill := MarkEofIdle)
    case MarkEofIdle => s.(status := Idle, fill := Head)
    case Put =>
      if Space(s.ring) < |s.tmp| then s.(fill := Head)
      else s.(ring := WriteBy(mode, s.ring, s.tmp), tmp := [], fill := Head)
  }

  function ReaderStep(s: Sys, ok: bool): Sys {
    match s.reader
    case Starting => s.(status := Running, reader := Ready)
    case Ready => s
    case RaiseFlag => s.(flag := PauseFlag, reader := AwaitIdle)
    case AwaitIdle => if s.status.Idle? then s.(reader := DropFlag) else s
    case DropFlag => s.(flag := NoFlag, reader := RealSeek)
    case RealSeek =>
      s.(realPos := if !ok then s.realPos else if s.whence.SeekSet? then s.want else s.realPos + s.want,
         reader := ResetCache)
    case ResetCache => s.(ring := Reset(s.ring), epoch := s.epoch + 1, reader := ResumeFlag)
    case ResumeFlag => s.(flag := NoFlag, reader := ResumeStatus)
    case ResumeStatus => s.(status := Running, reader := SetPos)
    case SetPos => s.(curPos := Target(s, s.want, s.whence), reader := Ready)
  }

  function Apply(src: seq<Byte>, mode: Mode, s: Sys, step: Step): Sys
    requires Enabled(src, s, step)
  {
    match step
    case Fill(n, eof) => FillStep(src, mode, s, n, eof)
    case Read(size) =>
      var (ring, out) := CacheRing.Read(s.ring, size);
      s.(ring := ring, curPos := s.curPos + |out|)
    case BeginSeek(pos, whence) =>
      var (hit, ring) := TrySeek(s, pos, whence);
      if hit then s.(ring := ring, curPos := Target(s, pos, whence))
      else s.(want := pos, whence := whence, reader := RaiseFlag)
    case Reader(ok) => ReaderStep(s, ok)
  }

  predicate Init(s: Sys) {
    && s.ring == Empty(s.ring.fixPreSize, s.ring.data) && s.ring.fixPreSize < |s.ring.data|
    && s.flag == NoFlag && s.status == Idle && s.fill == Head && s.tmp == []
    && s.realPos == 0 && s.curPos == 0 && s.reader == Starting && s.epoch == 0
  }

  // ---------------------------------------------------------- pause protocol

  /** The fill thread has been seen idle and has not been told to run again. */
  predicate Halted(s: Sys) {
    s.reader in {Starting, DropFlag, RealSeek, ResetCache, ResumeFlag, ResumeStatus}
  }

  /** The fill thread holds nothing and will fetch nothing before it is resumed. */
  predicate Parked(s: Sys) {
    s.tmp == [] && s.status != Running
  }

  /** What the two flags guarantee, whatever the bytes are. */
  predicate Protocol(s: Sys) {
    && (s.status.Idle? ==> s.tmp == [] && s.fill in {Head, MarkPaused, TestIdle})
    && (s.status.Paused? ==> s.fill in {TestIdle, TestPaused, LowerFlag, MarkIdle})
    && (s.fill in {LowerFlag, MarkIdle, Fetch, MarkEof, MarkEofIdle} ==> s.tmp == [])
    && (Halted(s) ==> Parked(s))
    && (s.flag.PauseFlag? ==> s.reader in {AwaitIdle, DropFlag})
    && (s.reader in {RealSeek, ResetCache, ResumeFlag, ResumeStatus} ==> s.flag.NoFlag?)
    && (s.tmp != [] && (s.fill.MarkPaused? || s.status.Paused?) ==> s.reader.AwaitIdle?)
    && (s.tmp != [] ==> s.tmpEpoch == s.epoch)
  }

  lemma ProtocolKept(src: seq<Byte>, mode: Mode, s: Sys, step: Step)
    requires Protocol(s) && Enabled(src, s, step)
    ensures Protocol(Apply(src, mode, s, step))
  {
  }

  /** From the moment the pause is acknowledged until the resume, no step of the
      fill thread touches the cache or the real stream, and it holds no bytes. */
  lemma HaltedFillIsInert(src: seq<Byte>, mode: Mode, s: Sys, n: nat, eof: bool)
    requires Protocol(s) && Halted(s) && Enabled(src, s, Fill(n, eof))
    ensures var t := FillStep(src, mode, s, n, eof);
            t.ring == s.ring && t.realPos == s.realPos && t.tmp == [] && Halted(t)
  {
  }

  // ------------------------------------------------------------ the bytes held

  /** `bytes` are what the source holds from offset `pos` on. */
  predicate At(src: seq<Byte>, pos: int, bytes: seq<Byte>) {
    bytes == [] || (0 <= pos && pos + |bytes| <= |src| && bytes == src[pos..pos + |bytes|])
  }

  lemma AtSlice(src: seq<Byte>, pos: int, bytes: seq<Byte>, a: nat, part: seq<Byte>)
    requires At(src, pos, bytes) && a + |part| <= |bytes| && part == bytes[a..a + |part|]
    ensures At(src, pos + a, part)
  {
    if part != [] {
      assert 0 <= pos && pos + |bytes| <= |src|;
      forall i | 0 <= i < |part|
        ensures part[i] == src[pos + a..pos + a + |part|][i]
      {
        assert part[i] == bytes[a + i];
      }
    }
  }

  lemma AtJoin(src: seq<Byte>, pos: int, a: seq<Byte>, b: seq<Byte>)
    requires At(src, pos, a) && At(src, pos + |a|, b)
    ensures At(src, pos, a + b)
  {
    if a == [] {
      assert a + b == b;
    } else if b == [] {
      assert a + b == a;
    }
  }

  /** The cache and the fill thread's bytes are one stretch of the source that
      ends where the real stream stands, split at `pos`. */
  predicate SyncedAt(src: seq<Byte>, s: Sys, pos: int) {
    && Window(s.ring)
    && pos + s.ring.level + |s.tmp| == s.realPos
    && At(src, pos - s.ring.preSize, Held(s.ring) + s.tmp)
  }

  /** The position the reader is told, or is about to be told. */
  function ReaderPos(s: Sys): int {
    if s.reader in {ResumeFlag, ResumeStatus, SetPos} then Target(s, s.want, s.whence) else s.curPos
  }

  /** While a missed seek waits for the pause, the fill thread may already have
      thrown its bytes away; from then on only the shape of the cache matters. */
  predicate Synced(src: seq<Byte>, s: Sys) {
    match s.reader
    case AwaitIdle => SyncedAt(src, s, s.curPos) || (Window(s.ring) && Parked(s))
    case DropFlag => Window(s.ring)
    case RealSeek => Window(s.ring)
    case ResetCache => Window(s.ring) && s.realPos == Target(s, s.want, s.whence)
    case _ => SyncedAt(src, s, ReaderPos(s))
  }

  /** What a step needs for the reader to keep seeing the source:
      a write must avoid the two hazards of `cache_write`;
      a seek that hits must cover less than 2^31 bytes, or `abs` cuts it short;
      a seek that misses must succeed on the real stream and, when relative,
      start with nothing fetched ahead, because the real stream counts from its
      own position (a failed one does no harm only if the stream stands there). */
  predicate Good(mode: Mode, s: Sys, step: Step) {
    match step
    case Fill(_, _) =>
      mode.AsWritten? && s.fill.Put? && 0 < |s.tmp| <= Space(s.ring) ==> !WriteHazard(s.ring, |s.tmp|)
    case Read(_) => true
    case BeginSeek(pos, whence) =>
      TrySeek(s, pos, whence).0 ==> -0x8000_0000 < Target(s, pos, whence) - s.curPos < 0x8000_0000
    case Reader(ok) =>
      s.reader.RealSeek? ==>
        if ok then s.whence.SeekSet? || s.realPos == s.curPos
        else s.realPos == Target(s, s.want, s.whence)
  }

  lemma FillKeepsSyncIff(src: seq<Byte>, mode: Mode, s: Sys, n: nat, eof: bool)
    requires Protocol(s) && Synced(src, s) && Enabled(src, s, Fill(n, eof))
    ensures Synced(src, FillStep(src, mode, s, n, eof)) <==> Good(mode, s, Fill(n, eof))
  {
    hide Window, Write, WriteMeant, WriteHazard, Held, SyncedAt;
    if s.fill.Put? && |s.tmp| <= Space(s.ring) {
      BusyFillIsSynced(src, s);
      PutKeepsSyncIff(src, mode, s, ReaderPos(s));
    } else if s.fill.Fetch? && !eof && n > 0 {
      BusyFillIsSynced(src, s);
      FetchKeepsSync(src, s, FillStep(src, mode, s, n, eof), ReaderPos(s));
    } else {
      QuietFillKeepsSync(src, s, FillStep(src, mode, s, n, eof));
    }
  }

  /** A fill thread that fetches or writes is not being paused. */
  lemma BusyFillIsSynced(src: seq<Byte>, s: Sys)
    requires Protocol(s) && Synced(src, s) && (s.fill.Fetch? || s.fill.Put?)
    ensures SyncedAt(src, s, ReaderPos(s))
    ensures s.reader in {Ready, RaiseFlag, AwaitIdle, SetPos}
  {
  }

  lemma QuietFillKeepsSync(src: seq<Byte>, s: Sys, t: Sys)
    requires Protocol(s) && Synced(src, s)
    requires t == s.(fill := t.fill, flag := t.flag, status := t.status, tmp := t.tmp)
    requires t.tmp == s.tmp || (t.tmp == [] && s.status.Paused? && t.status.Paused?)
    requires s.reader.AwaitIdle? && Parked(s) ==> Parked(t)
    ensures Synced(src, t)
  {
    if t.tmp == s.tmp {
      assert forall pos :: SyncedAt(src, s, pos) ==> SyncedAt(src, t, pos);
    }
  }

  lemma FetchKeepsSync(src: seq<Byte>, s: Sys, t: Sys, pos: int)
    requires SyncedAt(src, s, pos) && s.tmp == [] && 0 <= s.realPos <= t.realPos <= |src|
    requires t == s.(tmp := src[s.realPos..t.realPos], tmpEpoch := t.tmpEpoch, realPos := t.realPos, fill := t.fill)
    ensures SyncedAt(src, t, pos)
  {
    FetchedBytes(src, pos - s.ring.preSize, Held(s.ring), t.tmp);
  }

  lemma FetchedBytes(src: seq<Byte>, from: int, held: seq<Byte>, fetched: seq<Byte>)
    requires At(src, from, held + []) && At(src, from + |held|, fetched)
    ensures At(src, from, held + fetched)
  {
    assert held + [] == held;
    AtJoin(src, from, held, fetched);
  }

  lemma PutKeepsSyncIff(src: seq<Byte>, mode: Mode, s: Sys, pos: int)
    requires SyncedAt(src, s, pos) && |s.tmp| <= Space(s.ring)
    ensures WriteInside(s.ring, |s.tmp|)
    ensures var t := s.(ring := WriteBy(mode, s.ring, s.tmp), tmp := [], fill := Head);
            var safe := mode.AsMeant? || s.tmp == [] || !WriteHazard(s.ring, |s.tmp|);
            && (Window(t.ring) <==> safe)
            && (SyncedAt(src, t, pos) <==> safe)
  {
    hide Window, Write, WriteMeant, WriteHazard, At;
    var c := s.ring;
    WriteMovesHeld(c, s.tmp);
    var d := WriteMeant(c, s.tmp);
    PutBytes(src, pos - c.preSize, Held(c) + s.tmp, Held(d), c.preSize - d.preSize);
  }

  lemma PutBytes(src: seq<Byte>, from: int, before: seq<Byte>, after: seq<Byte>, gone: nat)
    requires At(src, from, before) && gone <= |before| && after == before[gone..]
    ensures At(src, from + gone, after + [])
  {
    assert after + [] == after;
    AtSlice(src, from, before, gone, after);
  }

  lemma SeekKeepsSyncIff(src: seq<Byte>, mode: Mode, s: Sys, pos: int, whence: Whence)
    requires Protocol(s) && Synced(src, s) && Enabled(src, s, BeginSeek(pos, whence))
    ensures Synced(src, Apply(src, mode, s, BeginSeek(pos, whence))) <==> Good(mode, s, BeginSeek(pos, whence))
  {
    hide Window, SeekBack, SeekForward, Step32, At, Span;
    var distance := Target(s, pos, whence) - s.curPos;
    var arg := if whence.SeekSet? then -distance else distance;
    Step32IsExactIff(arg);
    SeekMovesWindow(s.ring, Step32(arg), distance >= 0);
  }

  /** Which seeks of less than 2^31 bytes the cache serves: those that stay where they
      are, and those inside a window whose ends are different storage positions.
      A served seek moves that many bytes between read-ahead and history. */
  lemma ServedIff(s: Sys, pos: int, whence: Whence)
    requires Window(s.ring)
    requires var target := if whence.SeekSet? then pos else s.curPos + pos;
             -0x8000_0000 < target - s.curPos < 0x8000_0000
    ensures var move := if whence.SeekSet? then pos - s.curPos else pos;
            var (hit, ring) := TrySeek(s, pos, whence);
            && (hit <==> move == 0 || (0 < move <= s.ring.level && s.ring.rp != s.ring.wp)
                         || (0 < -move <= s.ring.preSize && s.ring.preRp != s.ring.rp))
            && (hit ==> Window(ring) && ring.preSize == s.ring.preSize + move && Held(ring) == Held(s.ring))
            && (!hit ==> ring == s.ring)
  {
    hide Window, SeekBack, SeekForward, Step32, Span;
    var distance := Target(s, pos, whence) - s.curPos;
    var arg := if whence.SeekSet? then -distance else distance;
    Step32IsExactIff(arg);
    SeekMovesWindow(s.ring, Step32(arg), distance >= 0);
  }

  /** `abs` reports the true distance exactly for distances an `int` can hold. */
  lemma Step32IsExactIff(x: int)
    ensures Step32(x) == (if x < 0 then -x else x) <==> -0x8000_0000 < x < 0x8000_0000
  {
    if -0x8000_0000 <= x < 0x8000_0000 {
      assert Int32(x) == x;
    }
  }

  lemma ReadKeepsSync(src: seq<Byte>, mode: Mode, s: Sys, size: nat)
    requires Protocol(s) && Synced(src, s) && Enabled(src, s, Read(size))
    ensures var out := CacheRing.Read(s.ring, size).1;
            && Synced(src, Apply(src, mode, s, Read(size)))
            && At(src, s.curPos, out)
            && |out| == Min(s.ring.level, size)
  {
    hide Window, Span, Taken;
    ReadMovesWindow(s.ring, size);
    var (d, out) := CacheRing.Read(s.ring, size);
    ReadBytes(src, s.curPos, History(s.ring), Pending(s.ring), s.tmp, out);
    assert Held(d) == Held(s.ring) by {
      assert History(s.ring) + out + Pending(s.ring)[|out|..] == History(s.ring) + Pending(s.ring);
    }
  }

  lemma ReadBytes(src: seq<Byte>, pos: int, history: seq<Byte>, pending: seq<Byte>, tmp: seq<Byte>, out: seq<Byte>)
    requires At(src, pos - |history|, history + pending + tmp) && |out| <= |pending| && out == pending[..|out|]
    ensures At(src, pos, out)
  {
    AtSlice(src, pos - |history|, history + pending + tmp, |history|, out);
  }

  lemma ReaderKeepsSyncIff(src: seq<Byte>, mode: Mode, s: Sys, ok: bool)
    requires Protocol(s) && Synced(src, s) && Enabled(src, s, Reader(ok))
    ensures Synced(src, ReaderStep(s, ok)) <==> Good(mode, s, Reader(ok))
  {
    hide SyncedAt, Window, Reset, Step32;
    var t := ReaderStep(s, ok);
    if s.reader.ResetCache? {
      ResetIsEmpty(s.ring);
      EmptyIsSynced(src, t, Target(s, s.want, s.whence));
    } else {
      SameBytes(src, s, t, ReaderPos(s));
    }
  }

  lemma ResetIsEmpty(c: Ring)
    requires Window(c)
    ensures Reset(Reset(c)) == Reset(c) && Reset(c).fixPreSize < |Reset(c).data|
  {
  }

  lemma SameBytes(src: seq<Byte>, s: Sys, t: Sys, pos: int)
    ensures SyncedAt(src, s, pos) ==> Window(s.ring)
    ensures t.ring == s.ring && t.tmp == s.tmp && t.realPos == s.realPos ==>
      (SyncedAt(src, s, pos) <==> SyncedAt(src, t, pos))
  {
  }

  lemma EmptyIsSynced(src: seq<Byte>, t: Sys, pos: int)
    requires t.ring == Reset(t.ring) && t.ring.fixPreSize < |t.ring.data| && t.tmp == [] && t.realPos == pos
    ensures SyncedAt(src, t, pos)
  {
    assert Held(t.ring) + t.tmp == [];
  }

  /** A step keeps cache, fill thread and reader in step with the source if and
      only if it is good; the pause protocol holds either way. */
  lemma StepKeepsSyncIff(src: seq<Byte>, mode: Mode, s: Sys, step: Step)
    requires Protocol(s) && Synced(src, s) && Enabled(src, s, step)
    ensures Protocol(Apply(src, mode, s, step))
    ensures Synced(src, Apply(src, mode, s, step)) <==> Good(mode, s, step)
  {
    ProtocolKept(src, mode, s, step);
    match step
    case Fill(n, eof) => FillKeepsSyncIff(src, mode, s, n, eof);
    case Read(size) => ReadKeepsSync(src, mode, s, size);
    case BeginSeek(pos, whence) => SeekKeepsSyncIff(src, mode, s, pos, whence);
    case Reader(ok) => ReaderKeepsSyncIff(src, mode, s, ok);
  }

  // -------------------------------------------------------------------- runs

  /** States and steps of a run from start-up on. */
  ghost predicate Run(src: seq<Byte>, mode: Mode, states: seq<Sys>, steps: seq<Step>) {
    && |states| == |steps| + 1
    && Init(states[0])
    && forall i :: 0 <= i < |steps| ==>
         Enabled(src, states[i], steps[i]) && states[i + 1] == Apply(src, mode, states[i], steps[i])
  }

  ghost predicate GoodRun(src: seq<Byte>, mode: Mode, states: seq<Sys>, steps: seq<Step>) {
    && Run(src, mode, states, steps)
    && forall i :: 0 <= i < |steps| ==> Good(mode, states[i], steps[i])
  }

  /** What the reader sees of a step. */
  datatype Event = FileRead(out: seq<Byte>) | FileSeek(pos: int) | NoEvent

  function EventOf(src: seq<Byte>, s: Sys, step: Step): Event
    requires Enabled(src, s, step)
  {
    match step
    case Fill(_, _) => NoEvent
    case Read(size) => FileRead(CacheRing.Read(s.ring, size).1)
    case BeginSeek(pos, whence) => if TrySeek(s, pos, whence).0 then FileSeek(Target(s, pos, whence)) else NoEvent
    case Reader(_) => if s.reader.SetPos? then FileSeek(Target(s, s.want, s.whence)) else NoEvent
  }

  /** The plain file: a read hands out the bytes at the position and moves past
      them, a seek sets the position. */
  predicate FileStep(src: seq<Byte>, pos: int, event: Event, next: int) {
    match event
    case FileRead(out) => At(src, pos, out) && next == pos + |out|
    case FileSeek(target) => next == target
    case NoEvent => next == pos
  }

  lemma {:induction false} RunKeepsProtocol(src: seq<Byte>, mode: Mode, states: seq<Sys>, steps: seq<Step>, i: nat)
    requires Run(src, mode, states, steps) && i < |states|
    ensures Protocol(states[i])
  {
    if i > 0 {
      RunKeepsProtocol(src, mode, states, steps, i - 1);
      ProtocolKept(src, mode, states[i - 1], steps[i - 1]);
    }
  }

  lemma MeantStepKeepsWindow(src: seq<Byte>, s: Sys, step: Step)
    requires Window(s.ring) && Enabled(src, s, step)
    ensures Window(Apply(src, AsMeant, s, step).ring)
  {
    hide Window, WriteMeant, SeekBack, SeekForward, CacheRing.Read, Step32;
    match step
    case Fill(n, eof) =>
      if s.fill.Put? && |s.tmp| <= Space(s.ring) {
        WriteMovesHeld(s.ring, s.tmp);
      }
    case Read(size) => ReadMovesWindow(s.ring, size);
    case BeginSeek(pos, whence) =>
      var distance := Target(s, pos, whence) - s.curPos;
      SeekMovesWindow(s.ring, Step32(if whence.SeekSet? then -distance else distance), distance >= 0);
    case Reader(ok) => ResetKeepsWindow(s.ring);
  }

  lemma ResetKeepsWindow(c: Ring)
    requires Window(c)
    ensures Window(Reset(c))
  {
  }

  /** With the write as it is meant, the window invariant needs nothing else: it
      holds in every run, whatever is asked for and whichever real seeks fail. */
  lemma {:induction false} MeantRunKeepsWindow(src: seq<Byte>, states: seq<Sys>, steps: seq<Step>, i: nat)
    requires Run(src, AsMeant, states, steps) && i < |states|
    ensures Window(states[i].ring)
  {
    hide Window, Apply, Enabled;
    if i == 0 {
      EmptyHasWindow(states[0].ring);
    } else {
      MeantRunKeepsWindow(src, states, steps, i - 1);
      MeantStepKeepsWindow(src, states[i - 1], steps[i - 1]);
    }
  }

  lemma EmptyHasWindow(c: Ring)
    requires c == Empty(c.fixPreSize, c.data) && c.fixPreSize < |c.data|
    ensures Window(c)
  {
  }

  lemma {:induction false} GoodRunKeepsSync(src: seq<Byte>, mode: Mode, states: seq<Sys>, steps: seq<Step>, i: nat)
    requires GoodRun(src, mode, states, steps) && i < |states|
    ensures Protocol(states[i]) && Synced(src, states[i])
  {
    if i == 0 {
      var s := states[0];
      assert Held(s.ring) + s.tmp == [];
    } else {
      GoodRunKeepsSync(src, mode, states, steps, i - 1);
      StepKeepsSyncIff(src, mode, states[i - 1], steps[i - 1]);
    }
  }

  lemma StepRefinesFile(src: seq<Byte>, mode: Mode, s: Sys, step: Step)
    requires Protocol(s) && Synced(src, s) && Enabled(src, s, step)
    ensures FileStep(src, s.curPos, EventOf(src, s, step), Apply(src, mode, s, step).curPos)
  {
    hide Protocol, Synced, At, TrySeek, CacheRing.Read;
    if step.Read? {
      ReadKeepsSync(src, mode, s, step.size);
    }
  }

  /** Transparency: in every interleaving of good steps the reader's view is that
      of the plain file. */
  lemma CacheRefinesFile(src: seq<Byte>, mode: Mode, states: seq<Sys>, steps: seq<Step>)
    requires GoodRun(src, mode, states, steps)
    ensures forall i :: 0 <= i < |steps| ==>
      FileStep(src, states[i].curPos, EventOf(src, states[i], steps[i]), states[i + 1].curPos)
  {
    hide Protocol, Synced, Apply, Enabled, EventOf, FileStep, Good;
    forall i | 0 <= i < |steps|
      ensures FileStep(src, states[i].curPos, EventOf(src, states[i], steps[i]), states[i + 1].curPos)
    {
      GoodRunKeepsSync(src, mode, states, steps, i);
      StepRefinesFile(src, mode, states[i], steps[i]);
    }
  }

  /** The step of a run at which the cache is emptied. */
  predicate Resets(s: Sys, step: Step) {
    step.Reader? && s.reader.ResetCache?
  }

  lemma EpochCountsResets(src: seq<Byte>, mode: Mode, s: Sys, step: Step)
    requires Enabled(src, s, step)
    ensures var t := Apply(src, mode, s, step);
            && t.epoch == s.epoch + (if Resets(s, step) then 1 else 0)
            && (Resets(s, step) ==> t.ring.level == 0 && t.ring.preSize == 0)
  {
    hide CacheRing.Read, Write, WriteMeant, SeekBack, SeekForward, Step32;
  }

  /** Bytes in hand are those of the last fetch, and no step since has emptied the
      cache. */
  lemma {:induction false} FetchedSinceReset(src: seq<Byte>, mode: Mode, states: seq<Sys>, steps: seq<Step>, i: nat)
      returns (j: nat)
    requires Run(src, mode, states, steps) && i < |states| && states[i].tmp != []
    ensures j < i && steps[j].Fill? && states[j].fill.Fetch? && !steps[j].eof
    ensures states[i].tmp == states[j + 1].tmp
    ensures At(src, states[j].realPos, states[i].tmp) && |states[i].tmp| == steps[j].fetched
    ensures forall k :: j < k < i ==> !Resets(states[k], steps[k])
  {
    hide CacheRing.Read, Write, WriteMeant, SeekBack, SeekForward, Step32, Enabled;
    var s, step := states[i - 1], steps[i - 1];
    RunKeepsProtocol(src, mode, states, steps, i - 1);
    if step.Fill? && s.fill.Fetch? && !step.eof && step.fetched > 0 {
      j := i - 1;
      FetchIsAt(src, mode, s, step.fetched);
    } else {
      OnlyFetchesFill(src, mode, s, step);
      j := FetchedSinceReset(src, mode, states, steps, i - 1);
    }
  }

  lemma FetchIsAt(src: seq<Byte>, mode: Mode, s: Sys, n: nat)
    requires Enabled(src, s, Fill(n, false)) && s.fill.Fetch? && n > 0
    ensures var t := Apply(src, mode, s, Fill(n, false));
            At(src, s.realPos, t.tmp) && |t.tmp| == n
  {
  }

  lemma OnlyFetchesFill(src: seq<Byte>, mode: Mode, s: Sys, step: Step)
    requires Protocol(s) && Enabled(src, s, step)
    requires !(step.Fill? && s.fill.Fetch? && !step.eof && step.fetched > 0)
    ensures var t := Apply(src, mode, s, step);
            t.tmp != [] ==> t.tmp == s.tmp && !Resets(s, step)
  {
    hide CacheRing.Read, Write, WriteMeant, SeekBack, SeekForward, Step32;
  }

  /** In every run, good or not: bytes the fill thread writes were fetched since
      the cache was last emptied, so nothing fetched before a pause survives it. */
  lemma WrittenBytesAreFresh(src: seq<Byte>, mode: Mode, states: seq<Sys>, steps: seq<Step>, i: nat)
    requires Run(src, mode, states, steps) && i < |steps|
    requires steps[i].Fill? && states[i + 1].ring != states[i].ring
    ensures states[i].tmpEpoch == states[i].epoch && !Halted(states[i])
  {
    RunKeepsProtocol(src, mode, states, steps, i);
  }
}
