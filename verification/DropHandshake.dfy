/**
 The start-up drop handshake.  The audio and the video decoder thread each
 publish the time of their first sample in the shared host record, read the
 other's, and decide on their own who has to catch up; the host's `dropDone`
 flag ends the phase for both.

 A step is one access to the host record, or one decoded chunk or picture.
 Time only enters as the video thread's three-second limit, which may strike
 whenever that thread tests it.
 */
module DropHandshake {
  import opened Common

  const AVSYNC_DROP_THRESHOLD: nat := 30 * 1000     // ms

  /** The two first times and the PCM format, fixed for a run. */
  datatype Setting = Setting(firstAudio: int, firstVideo: int, samplerate: nat, channels: nat)

  datatype Host = Host(firstA: Option<int>, firstV: Option<int>, dropDone: bool)

  datatype AudioPc =
    | APublish        // about to publish the first audio time
    | ADecode         // about to decode a chunk
    | ATest           // at the head of the drop loop
    | AGetFirstV      // about to read the first video time
    | AGetDoneFirst   // about to read dropDone after that, and decide
    | ASetNoNeed      // about to set dropDone: the gap calls for no drop
    | AGetDone        // about to read dropDone, decision taken
    | ASetFinished    // about to set dropDone: enough has been dropped
    | APass           // about to hand the chunk on

  datatype Audio = Audio(
    pc: AudioPc,
    firstV: Option<int>,
    dropDone: bool,     // the thread's own copy
    dropSize: int,
    outlen: nat,        // PCM bytes of the chunk in hand
    lastChunk: nat,     // size of the chunk last dropped
    decoded: nat,
    dropped: nat,
    passed: nat
  )

  datatype VideoPc =
    | VPublish | VDecode | VTest | VGetFirstA | VGetDoneFirst | VSetNoNeed | VGetDone | VSetFinished
    | VSetTimeout | VQueue

  datatype Video = Video(
    pc: VideoPc,
    firstA: Option<int>,
    dropDone: bool,
    needDrop: bool,
    pts: int,           // of the picture in hand
    decoded: nat,
    queued: nat
  )

  datatype Sys = Sys(host: Host, a: Audio, v: Video, timedOut: bool)

  datatype Step =
    | AudioStep(outlen: nat)
    | VideoStep(pts: int, timeout: bool)

  /** A gap of first times that is worth a drop and not absurd. */
  predicate Droppable(diff: int) {
    0 <= diff && !(diff / 90 > AVSYNC_DROP_THRESHOLD || diff / 90 <= AVSYNC_THRESHOLD)
  }

  /** Bytes of PCM in a gap, rounded down to 16. */
  function DropSize(p: Setting, diff: nat): nat {
    var size := (diff * p.samplerate * p.channels * 2) / 90000;
    size - size % 16
  }

  function AudioApply(p: Setting, s: Sys, outlen: nat): Sys {
    var a, h := s.a, s.host;
    match a.pc
    case APublish => s.(host := h.(firstA := Some(p.firstAudio)), a := a.(pc := ADecode))
    case ADecode => s.(a := a.(outlen := outlen, decoded := a.decoded + outlen, pc := ATest))
    case ATest =>
      s.(a := a.(pc := if a.dropDone then APass else if a.firstV.None? then AGetFirstV else AGetDone))
    case AGetFirstV => s.(a := a.(firstV := h.firstV, pc := AGetDoneFirst))
    case AGetDoneFirst =>
      var b := a.(dropDone := h.dropDone);
      if b.firstV.None? then s.(a := b.(pc := ATest))
      else if p.firstAudio > b.firstV.value then s.(a := b.(dropSize := 0, pc := ATest))
      else
        var diff := b.firstV.value - p.firstAudio;
        if Droppable(diff) then s.(a := b.(dropSize := DropSize(p, diff), pc := ATest))
        else s.(a := b.(pc := ASetNoNeed))
    case ASetNoNeed => s.(host := h.(dropDone := true), a := a.(dropDone := true, pc := ATest))
    case AGetDone =>
      var b := a.(dropDone := h.dropDone);
      if b.dropSize == 0 then s.(a := b.(pc := ATest))
      else
        var left := b.dropSize - b.outlen;
        s.(a := b.(dropSize := left, dropped := b.dropped + b.outlen, lastChunk := b.outlen, outlen := 0,
                   pc := if left <= 0 then ASetFinished else APass))
    case ASetFinished => s.(host := h.(dropDone := true), a := a.(dropSize := 0, pc := APass))
    case APass => s.(a := a.(passed := a.passed + a.outlen, outlen := 0, pc := ADecode))
  }

  function VideoApply(p: Setting, s: Sys, pts: int, timeout: bool): Sys {
    var v, h := s.v, s.host;
    match v.pc
    case VPublish =>
      s.(host := h.(firstV := Some(p.firstVideo)), v := v.(pts := p.firstVideo, decoded := v.decoded + 1, pc := VTest))
    case VDecode => s.(v := v.(pts := pts, decoded := v.decoded + 1, pc := VTest))
    case VTest =>
      s.(v := v.(pc := if v.dropDone then VQueue else if timeout then VSetTimeout
                       else if v.firstA.None? then VGetFirstA else VGetDone))
    case VGetFirstA => s.(v := v.(firstA := h.firstA, pc := VGetDoneFirst))
    case VGetDoneFirst =>
      var w := v.(dropDone := h.dropDone);
      if w.firstA.None? then s.(v := w.(pc := VTest))
      else if p.firstVideo > w.firstA.value then s.(v := w.(needDrop := false, pc := VTest))
      else if Droppable(w.firstA.value - p.firstVideo) then s.(v := w.(needDrop := true, pc := VTest))
      else s.(v := w.(pc := VSetNoNeed))
    case VSetNoNeed => s.(host := h.(dropDone := true), v := v.(dropDone := true, pc := VTest))
    case VGetDone =>
      var w := v.(dropDone := h.dropDone);
      if !w.needDrop then s.(v := w.(pc := VTest))
      else s.(v := w.(pc := if w.firstA.Some? && w.pts >= w.firstA.value then VSetFinished else VQueue))
    case VSetFinished => s.(host := h.(dropDone := true), v := v.(dropDone := true, pc := VQueue))
    case VSetTimeout => s.(host := h.(dropDone := true), v := v.(dropDone := true, pc := VQueue), timedOut := true)
    case VQueue => s.(v := v.(queued := v.queued + 1, pc := VDecode))
  }

  function Apply(p: Setting, s: Sys, step: Step): Sys {
    match step
    case AudioStep(outlen) => AudioApply(p, s, outlen)
    case VideoStep(pts, timeout) => VideoApply(p, s, pts, timeout)
  }

  predicate Init(s: Sys) {
    && s.host == Host(None, None, false) && !s.timedOut
    && s.a == Audio(APublish, None, false, -1, 0, 0, 0, 0, 0)
    && s.v == Video(VPublish, None, false, false, 0, 0, 0)
  }

  // -------------------------------------------------------------- who decides

  /** The audio thread knows both times and has decided. */
  predicate AudioDecided(s: Sys) {
    s.a.firstV.Some? && s.a.pc != AGetDoneFirst
  }

  predicate VideoDecided(s: Sys) {
    s.v.firstA.Some? && s.v.pc != VGetDoneFirst
  }

  /** The side whose first sample is the later one waits; this is the other. */
  predicate AudioMustDrop(p: Setting) {
    Droppable(p.firstVideo - p.firstAudio)
  }

  predicate VideoMustDrop(p: Setting) {
    Droppable(p.firstAudio - p.firstVideo)
  }

  predicate AudioDropping(s: Sys) {
    AudioDecided(s) && s.a.dropSize > 0 && !s.a.dropDone
  }

  predicate VideoDropping(s: Sys) {
    VideoDecided(s) && s.v.needDrop && !s.v.dropDone
  }

  /** A thread whose own decision makes it set `dropDone` with its next access. */
  predicate AboutToSet(s: Sys) {
    s.a.pc in {ASetNoNeed, ASetFinished} || s.v.pc in {VSetNoNeed, VSetFinished}
  }

  /** Both have decided, neither drops, neither is about to end the phase. */
  predicate BothWaiting(s: Sys) {
    && AudioDecided(s) && VideoDecided(s) && !s.host.dropDone
    && !AudioDropping(s) && !VideoDropping(s) && !AboutToSet(s)
  }

  /** What the audio thread computes that it has to drop. */
  function Goal(p: Setting): nat {
    if AudioMustDrop(p) then DropSize(p, p.firstVideo - p.firstAudio) else 0
  }

  // ---------------------------------------------------------------- invariant

  predicate HostInv(p: Setting, s: Sys) {
    && s.host.firstA == (if s.a.pc.APublish? then None else Some(p.firstAudio))
    && s.host.firstV == (if s.v.pc.VPublish? then None else Some(p.firstVideo))
    && (s.a.firstV.Some? ==> s.a.firstV == Some(p.firstVideo))
    && (s.v.firstA.Some? ==> s.v.firstA == Some(p.firstAudio))
    && (s.a.dropDone || s.v.dropDone || s.timedOut ==> s.host.dropDone)
  }

  predicate AudioInv(p: Setting, s: Sys) {
    var a := s.a;
    && (a.pc in {AGetDone, ASetNoNeed, ASetFinished} ==> a.firstV.Some?)
    && (a.pc.AGetFirstV? ==> a.firstV.None?)
    && (a.pc in {AGetFirstV, AGetDoneFirst, AGetDone} ==> !a.dropDone)
    && (a.pc in {APublish, ADecode} ==> a.outlen == 0)
    && a.decoded == a.dropped + a.passed + a.outlen
    && (!AudioDecided(s) ==> a.dropped == 0 && a.dropSize == -1)
    && (a.pc.ASetNoNeed? ==> !AudioMustDrop(p) && p.firstAudio <= p.firstVideo)
    && (AudioDecided(s) && !AudioMustDrop(p) ==>
          a.dropped == 0 && a.dropSize <= 0 && (p.firstAudio > p.firstVideo ==> a.dropSize == 0) && a.pc != ASetFinished
          && (p.firstAudio <= p.firstVideo ==> a.pc.ASetNoNeed? || a.dropDone))
    && (AudioDecided(s) && AudioMustDrop(p) ==> AudioAmount(p, s))
  }

  /** How far the dropper has come: while bytes are left to drop, dropped and left
      add up; at the end it overshot by less than the last chunk, or was cut off
      by the video thread's time limit. */
  predicate AudioAmount(p: Setting, s: Sys) {
    var a, goal := s.a, Goal(p);
    && a.pc != ASetNoNeed
    && (a.dropSize > 0 ==> a.dropped + a.dropSize == goal && a.pc != ASetFinished)
    && (a.dropSize <= 0 ==> a.pc.ASetFinished? || a.dropSize == 0)
    && (a.dropSize <= 0 && goal > 0 ==> goal <= a.dropped < goal + a.lastChunk)
    && (goal == 0 ==> a.dropped == 0 && a.dropSize == 0 && a.pc != ASetFinished)
    && (a.dropSize <= 0 && goal > 0 && a.pc != ASetFinished ==> s.host.dropDone)
  }

  predicate VideoInv(p: Setting, s: Sys) {
    var v := s.v;
    && (v.pc in {VGetDone, VSetNoNeed, VSetFinished} ==> v.firstA.Some?)
    && (v.pc.VGetFirstA? ==> v.firstA.None?)
    && (!VideoDecided(s) ==> !v.needDrop)
    && (v.pc in {VPublish, VDecode} ==> v.queued == v.decoded)
    && (v.pc !in {VPublish, VDecode} ==> v.queued + 1 == v.decoded)
    && (v.pc.VSetNoNeed? ==> !VideoMustDrop(p) && p.firstVideo <= p.firstAudio)
    && (v.pc.VSetFinished? ==> VideoMustDrop(p) && v.pts >= p.firstAudio)
    && (VideoDecided(s) ==> (v.needDrop <==> VideoMustDrop(p)))
    && (VideoDecided(s) && !VideoMustDrop(p) && p.firstVideo <= p.firstAudio ==> v.pc.VSetNoNeed? || v.dropDone)
  }

  /** While audio has to drop, only audio itself or the time limit ends the phase. */
  predicate DoneInv(p: Setting, s: Sys) {
    s.host.dropDone && AudioMustDrop(p) && !s.timedOut ==>
      AudioDecided(s) && s.a.dropSize <= 0 && s.a.pc != ASetFinished && Goal(p) > 0
  }

  predicate Inv(p: Setting, s: Sys) {
    HostInv(p, s) && AudioInv(p, s) && VideoInv(p, s) && DoneInv(p, s)
  }

  lemma AudioStepKeepsOthers(p: Setting, s: Sys, outlen: nat)
    requires Inv(p, s)
    ensures var t := AudioApply(p, s, outlen);
            HostInv(p, t) && VideoInv(p, t) && DoneInv(p, t)
  {
    hide DropSize;
  }

  lemma AudioStepKeepsAudio(p: Setting, s: Sys, outlen: nat)
    requires Inv(p, s)
    ensures AudioInv(p, AudioApply(p, s, outlen))
  {
    hide DropSize, VideoInv;
    if s.a.pc.AGetDoneFirst? {
      AudioDecides(p, s, outlen);
    }
  }

  lemma AudioDecides(p: Setting, s: Sys, outlen: nat)
    requires Inv(p, s) && s.a.pc.AGetDoneFirst?
    ensures AudioInv(p, AudioApply(p, s, outlen))
  {
    hide DropSize, VideoInv, DoneInv;
  }

  lemma VideoStepKeepsOthers(p: Setting, s: Sys, pts: int, timeout: bool)
    requires Inv(p, s)
    ensures var t := VideoApply(p, s, pts, timeout);
            HostInv(p, t) && AudioInv(p, t) && DoneInv(p, t)
  {
    hide DropSize;
  }

  lemma VideoStepKeepsVideo(p: Setting, s: Sys, pts: int, timeout: bool)
    requires Inv(p, s)
    ensures VideoInv(p, VideoApply(p, s, pts, timeout))
  {
    hide DropSize, AudioInv, DoneInv;
    if s.v.pc.VGetDoneFirst? {
      VideoDecides(p, s, pts, timeout);
    }
  }

  lemma VideoDecides(p: Setting, s: Sys, pts: int, timeout: bool)
    requires Inv(p, s) && s.v.pc.VGetDoneFirst?
    ensures VideoInv(p, VideoApply(p, s, pts, timeout))
  {
    hide DropSize, AudioInv, DoneInv;
  }

  // --------------------------------------------------------------------- runs

  function After(p: Setting, s: Sys, steps: seq<Step>): Sys
    decreases |steps|
  {
    if steps == [] then s else After(p, Apply(p, s, steps[0]), steps[1..])
  }

  lemma {:induction false} RunKeepsInv(p: Setting, s: Sys, steps: seq<Step>)
    requires Inv(p, s)
    ensures Inv(p, After(p, s, steps))
    decreases |steps|
  {
    if steps != [] {
      match steps[0] {
        case AudioStep(outlen) =>
          AudioStepKeepsOthers(p, s, outlen);
          AudioStepKeepsAudio(p, s, outlen);
        case VideoStep(pts, timeout) =>
          VideoStepKeepsOthers(p, s, pts, timeout);
          VideoStepKeepsVideo(p, s, pts, timeout);
      }
      RunKeepsInv(p, Apply(p, s, steps[0]), steps[1..]);
    }
  }

  lemma Reached(p: Setting, s: Sys, steps: seq<Step>)
    requires Init(s)
    ensures Inv(p, After(p, s, steps))
  {
    hide DropSize;
    RunKeepsInv(p, s, steps);
  }

  /** The two sides never both take themselves for the one that is ahead. */
  lemma NeverBothDrop(p: Setting, s: Sys, steps: seq<Step>)
    requires Init(s)
    ensures var t := After(p, s, steps);
            !(AudioDropping(t) && VideoDropping(t))
  {
    hide DropSize, After;
    Reached(p, s, steps);
  }

  /** Once both have decided and the phase is still open, exactly one side is at
      work or about to end the phase, with one exception: the gap is audio's to
      close and rounds to no bytes at all.  Then both wait for the time limit. */
  lemma BothWaitIff(p: Setting, s: Sys, steps: seq<Step>)
    requires Init(s)
    ensures var t := After(p, s, steps);
            AudioDecided(t) && VideoDecided(t) && !t.host.dropDone ==>
              (BothWaiting(t) <==> AudioMustDrop(p) && DropSize(p, p.firstVideo - p.firstAudio) == 0)
  {
    hide DropSize, After;
    Reached(p, s, steps);
  }

  /** Once both wait, only the time limit ends it: whatever the threads do, they
      wait until the video thread finds its limit reached. */
  lemma WaitingLasts(p: Setting, s: Sys, step: Step)
    requires Inv(p, s) && BothWaiting(s)
    ensures BothWaiting(Apply(p, s, step)) || (s.v.pc.VTest? && Apply(p, s, step).v.pc.VSetTimeout?)
         || (s.v.pc.VSetTimeout? && Apply(p, s, step).timedOut)
  {
    hide DropSize;
  }

  /** A run into the exception: video starts 200 ms after audio, and at eight
      samples a second on two channels the gap is six bytes, rounded to none. */
  lemma BothWaitRun(s: Sys)
    requires Init(s)
    ensures var p, audio, video := Setting(0, 18000, 8, 2), AudioStep(6), VideoStep(18000, false);
            BothWaiting(After(p, s, [audio, audio, video, audio, audio, audio, video, video, video]))
  {
    hide After, Apply, BothWaiting;
    var p, audio, video := Setting(0, 18000, 8, 2), AudioStep(6), VideoStep(18000, false);
    var host := Host(Some(0), Some(18000), false);
    var s3 := Sys(host, s.a.(outlen := 6, decoded := 6, pc := ATest), s.v.(pts := 18000, decoded := 1, pc := VTest), false);
    var s6 := s3.(a := s3.a.(firstV := Some(18000), dropSize := 0));
    var s9 := s6.(v := s6.v.(firstA := Some(0)));
    BothPublish(p, s, s3);
    AudioReads(p, s3, s6);
    VideoReads(p, s6, s9);
    var last := [video, video, video] + [];
    var mid := [audio, audio, audio] + last;
    AfterThree(p, s, audio, audio, video, mid);
    AfterThree(p, s3, audio, audio, audio, last);
    AfterThree(p, s6, video, video, video, []);
    assert [audio, audio, video] + mid == [audio, audio, video, audio, audio, audio, video, video, video];
    BothWaitNow(s9);
    assert After(p, s9, []) == s9 by { AfterNone(p, s9); }
  }

  lemma BothPublish(p: Setting, s: Sys, t: Sys)
    requires p == Setting(0, 18000, 8, 2) && Init(s)
    requires t == Sys(Host(Some(0), Some(18000), false), s.a.(outlen := 6, decoded := 6, pc := ATest),
                      s.v.(pts := 18000, decoded := 1, pc := VTest), false)
    ensures Apply(p, Apply(p, Apply(p, s, AudioStep(6)), AudioStep(6)), VideoStep(18000, false)) == t
  {
  }

  lemma AudioReads(p: Setting, s: Sys, t: Sys)
    requires p == Setting(0, 18000, 8, 2) && s.host == Host(Some(0), Some(18000), false)
    requires s.a.pc.ATest? && s.a.firstV.None? && !s.a.dropDone
    requires t == s.(a := s.a.(firstV := Some(18000), dropSize := 0))
    ensures Apply(p, Apply(p, Apply(p, s, AudioStep(6)), AudioStep(6)), AudioStep(6)) == t
  {
    assert DropSize(p, 18000) == 0;
  }

  lemma VideoReads(p: Setting, s: Sys, t: Sys)
    requires p == Setting(0, 18000, 8, 2) && s.host == Host(Some(0), Some(18000), false)
    requires s.v.pc.VTest? && s.v.firstA.None? && !s.v.dropDone && !s.v.needDrop
    requires t == s.(v := s.v.(firstA := Some(0)))
    ensures var video := VideoStep(18000, false);
            Apply(p, Apply(p, Apply(p, s, video), video), video) == t
  {
  }

  lemma BothWaitNow(s: Sys)
    requires s.a.pc.ATest? && s.a.firstV.Some? && s.a.dropSize == 0 && !s.host.dropDone
    requires s.v.pc.VTest? && s.v.firstA.Some? && !s.v.needDrop
    ensures BothWaiting(s)
  {
  }

  lemma AfterNone(p: Setting, s: Sys)
    ensures After(p, s, []) == s
  {
  }

  lemma AfterThree(p: Setting, s: Sys, a: Step, b: Step, c: Step, rest: seq<Step>)
    ensures After(p, s, [a, b, c] + rest) == After(p, Apply(p, Apply(p, Apply(p, s, a), b), c), rest)
  {
    hide Apply;
    var steps := [a, b, c] + rest;
    var steps1, steps2 := steps[1..], steps[1..][1..];
    assert steps1[0] == b && steps2[0] == c && steps2[1..] == rest;
    assert After(p, s, steps) == After(p, Apply(p, s, a), steps1);
    assert After(p, Apply(p, s, a), steps1) == After(p, Apply(p, Apply(p, s, a), b), steps2);
  }

  /** The exception needs a format of less than eighty samples a second over all
      channels: for every real one, both waiting is impossible. */
  lemma RealFormatsNeverBothWait(p: Setting, s: Sys, steps: seq<Step>)
    requires Init(s) && p.samplerate * p.channels >= 80
    ensures !BothWaiting(After(p, s, steps))
  {
    if AudioMustDrop(p) {
      var diff, rate := p.firstVideo - p.firstAudio, p.samplerate * p.channels;
      assert diff >= 9090;
      ProductAtLeast(diff, rate);
      assert diff * p.samplerate * p.channels * 2 == diff * rate * 2;
    }
    BothWaitIff(p, s, steps);
  }

  lemma ProductAtLeast(diff: nat, rate: nat)
    requires diff >= 9090 && rate >= 80
    ensures diff * rate >= 9090 * 80
  {
    assert diff * rate == 9090 * rate + (diff - 9090) * rate;
  }

  /** The drop size is the largest multiple of 16 that is no more than the PCM of
      two bytes a sample in the gap. */
  lemma DropSizeIsLargest(p: Setting, gap: nat)
    ensures var bytes := gap * p.samplerate * p.channels * 2;
            var n := DropSize(p, gap);
            n % 16 == 0 && n * 90000 <= bytes < (n + 16) * 90000
  {
    Rounding(gap * p.samplerate * p.channels * 2);
  }

  /** One second of stereo at 48 kHz. */
  lemma OneSecond()
    ensures DropSize(Setting(0, 90000, 48000, 2), 90000) == 192000
  {
  }

  lemma Rounding(bytes: nat)
    ensures var n := bytes / 90000 - bytes / 90000 % 16;
            n % 16 == 0 && n * 90000 <= bytes < (n + 16) * 90000
  {
    var q := bytes / 90000;
    assert q - q % 16 == 16 * (q / 16);
  }

  /** The gaps to be closed, from 101 ms to 30 s, in ticks. */
  lemma DroppableIff(diff: int)
    ensures Droppable(diff) <==> 9090 <= diff < 2700090
  {
  }

  /** What audio discards: nothing unless video starts between 101 ms and 30 s after
      it; never as much as a whole chunk more than the PCM of the gap; and, when the
      phase is over, no less than that but for the rounding to 16 bytes, unless the
      time limit cut it short.  Two bytes a sample, 90000 ticks a second. */
  lemma AudioDropsItsGoal(p: Setting, s: Sys, steps: seq<Step>)
    requires Init(s)
    ensures var t, gap := After(p, s, steps), p.firstVideo - p.firstAudio;
            var bytes := gap * p.samplerate * p.channels * 2;
            && (!(9090 <= gap < 2700090) ==> t.a.dropped == 0)
            && (t.a.dropped > 0 ==> (t.a.dropped - t.a.lastChunk) * 90000 < bytes)
            && (9090 <= gap < 2700090 && t.host.dropDone && !t.timedOut ==>
                  0 < t.a.dropped && bytes < (t.a.dropped + 16) * 90000)
  {
    hide DropSize, After;
    Reached(p, s, steps);
    var gap := p.firstVideo - p.firstAudio;
    DroppableIff(gap);
    if 0 <= gap {
      DropSizeIsLargest(p, gap);
    }
  }

  /** Every PCM byte decoded was dropped, handed on, or is in hand. */
  lemma AudioLosesNothing(p: Setting, s: Sys, steps: seq<Step>)
    requires Init(s)
    ensures var a := After(p, s, steps).a;
            a.decoded == a.dropped + a.passed + a.outlen
  {
    hide DropSize, After;
    Reached(p, s, steps);
  }

  /** Who does what, by the gap alone, once both have decided and the phase is open:
      the side that starts first by 101 ms to 30 s drops and the other does not;
      outside that range the side that starts first is about to end the phase. */
  lemma GapDecides(p: Setting, s: Sys, steps: seq<Step>)
    requires Init(s)
    ensures var t, gap := After(p, s, steps), p.firstVideo - p.firstAudio;
            AudioDecided(t) && VideoDecided(t) && !t.host.dropDone ==>
              && (AudioDropping(t) ==> 9090 <= gap < 2700090)
              && (VideoDropping(t) <==> 9090 <= -gap < 2700090)
              && (9090 <= gap < 2700090 && gap * p.samplerate * p.channels * 2 >= 16 * 90000 ==>
                    AudioDropping(t) || t.a.pc.ASetFinished?)
              && (-9090 < gap < 9090 || gap >= 2700090 || -gap >= 2700090 ==>
                    (0 <= gap ==> t.a.pc.ASetNoNeed?) && (gap <= 0 ==> t.v.pc.VSetNoNeed?))
  {
    hide DropSize, After;
    Reached(p, s, steps);
    var gap := p.firstVideo - p.firstAudio;
    DroppableIff(gap);
    DroppableIff(-gap);
    if 0 <= gap {
      DropSizeIsLargest(p, gap);
    }
  }

  /** When the host's flag is raised: by the time limit, because the gap calls for no
      drop, because audio has dropped the gap, or because video has come to a picture
      of audio's first time. */
  lemma FlagIsRaisedWhenDue(p: Setting, s: Sys, steps: seq<Step>, step: Step)
    requires Init(s)
    ensures var t, gap := After(p, s, steps), p.firstVideo - p.firstAudio;
            var u := Apply(p, t, step);
            !t.host.dropDone && u.host.dropDone ==>
              || u.timedOut
              || !(9090 <= gap < 2700090 || 9090 <= -gap < 2700090)
              || (9090 <= gap && gap * p.samplerate * p.channels * 2 < (t.a.dropped + 16) * 90000)
              || (9090 <= -gap && t.v.pts >= p.firstAudio)
  {
    hide DropSize, After;
    Reached(p, s, steps);
    var gap := p.firstVideo - p.firstAudio;
    DroppableIff(gap);
    DroppableIff(-gap);
    if 0 <= gap {
      DropSizeIsLargest(p, gap);
    }
  }

  // ---------------------------------------------------------------- progress

  function Audios(p: Setting, s: Sys, outlen: nat, n: nat): Sys {
    if n == 0 then s else AudioApply(p, Audios(p, s, outlen, n - 1), outlen)
  }

  function Videos(p: Setting, s: Sys, pts: int, n: nat): Sys {
    if n == 0 then s else VideoApply(p, Videos(p, s, pts, n - 1), pts, false)
  }

  lemma FirstAccess(p: Setting, s: Sys, outlen: nat, pts: int)
    ensures Audios(p, s, outlen, 1) == AudioApply(p, s, outlen)
    ensures Videos(p, s, pts, 1) == VideoApply(p, s, pts, false)
  {
    hide AudioApply, VideoApply;
    assert Audios(p, s, outlen, 0) == s && Videos(p, s, pts, 0) == s;
  }

  /** Three accesses after it can, a thread has decided. */
  lemma ThreeAccessesDecide(p: Setting, s: Sys, outlen: nat, pts: int)
    requires Inv(p, s) && !s.host.dropDone
    ensures s.a.pc.ATest? && s.a.firstV.None? && s.host.firstV.Some? ==> AudioDecided(Audios(p, s, outlen, 3))
    ensures s.v.pc.VTest? && s.v.firstA.None? && s.host.firstA.Some? ==> VideoDecided(Videos(p, s, pts, 3))
  {
    hide DropSize;
    FirstAccess(p, s, outlen, pts);
    var a2 := Audios(p, s, outlen, 2);
    var v2 := Videos(p, s, pts, 2);
    if s.a.pc.ATest? && s.a.firstV.None? && s.host.firstV.Some? {
      assert a2 == s.(a := s.a.(firstV := s.host.firstV, pc := AGetDoneFirst));
      assert Audios(p, s, outlen, 3) == AudioApply(p, a2, outlen);
    }
    if s.v.pc.VTest? && s.v.firstA.None? && s.host.firstA.Some? {
      assert v2 == s.(v := s.v.(firstA := s.host.firstA, pc := VGetDoneFirst));
      assert Videos(p, s, pts, 3) == VideoApply(p, v2, pts, false);
    }
  }

  /** A dropping audio thread drops the chunk it decodes, whole; with as much as is
      left to drop it ends the phase. */
  lemma AudioFinishes(p: Setting, s: Sys, outlen: nat)
    requires Inv(p, s) && !s.host.dropDone && AudioDropping(s) && s.a.pc.ADecode?
    ensures var t := Audios(p, s, outlen, if outlen >= s.a.dropSize then 4 else 3);
            && t.a.dropped == s.a.dropped + outlen && t.a.outlen == 0 && t.a.pc.APass?
            && (if outlen >= s.a.dropSize then t.host.dropDone
                else !t.host.dropDone && t.a.dropSize == s.a.dropSize - outlen)
  {
    hide DropSize;
    FirstAccess(p, s, outlen, 0);
    var t2 := Audios(p, s, outlen, 2);
    var t3 := Audios(p, s, outlen, 3);
    assert t2 == s.(a := s.a.(outlen := outlen, decoded := s.a.decoded + outlen, pc := AGetDone));
    assert t3 == AudioApply(p, t2, outlen);
    assert Audios(p, s, outlen, 4) == AudioApply(p, t3, outlen);
  }

  /** A dropping video thread ends the phase with the first picture that is due at
      audio's start, and not before; the picture is queued in either case. */
  lemma VideoFinishes(p: Setting, s: Sys, pts: int)
    requires Inv(p, s) && !s.host.dropDone && VideoDropping(s) && s.v.pc.VDecode?
    ensures var t := Videos(p, s, pts, if pts >= p.firstAudio then 5 else 4);
            && t.v.queued == s.v.queued + 1 && t.v.pc.VDecode?
            && (t.host.dropDone <==> pts >= p.firstAudio) && t.v.dropDone == t.host.dropDone
  {
    hide DropSize;
    FirstAccess(p, s, 0, pts);
    var t2 := Videos(p, s, pts, 2);
    var t3 := Videos(p, s, pts, 3);
    var t4 := Videos(p, s, pts, 4);
    assert t2 == s.(v := s.v.(pts := pts, decoded := s.v.decoded + 1, pc := VGetDone));
    assert t3 == t2.(v := t2.v.(pc := if pts >= p.firstAudio then VSetFinished else VQueue));
    assert t4 == VideoApply(p, t3, pts, false);
    assert Videos(p, s, pts, 5) == VideoApply(p, t4, pts, false);
  }

  /** The time limit ends the phase with the access after the one that finds it. */
  lemma TimeLimitFinishes(p: Setting, s: Sys, pts: int)
    requires s.v.pc.VTest? && !s.v.dropDone
    ensures var t := VideoApply(p, VideoApply(p, s, pts, true), pts, false);
            t.host.dropDone && t.v.dropDone && t.timedOut && t.v.pc.VQueue?
  {
  }

  /** With the phase over, what is decoded is handed on. */
  lemma OpenThreadsPassOn(p: Setting, s: Sys, outlen: nat, pts: int)
    requires Inv(p, s)
    ensures s.a.pc.ADecode? && s.a.dropDone ==>
      Audios(p, s, outlen, 3).a == s.a.(decoded := s.a.decoded + outlen, passed := s.a.passed + outlen)
    ensures s.v.pc.VDecode? && s.v.dropDone ==>
      Videos(p, s, pts, 3).v == s.v.(pts := pts, decoded := s.v.decoded + 1, queued := s.v.queued + 1)
  {
    hide DropSize;
    FirstAccess(p, s, outlen, pts);
    if s.a.pc.ADecode? && s.a.dropDone {
      var a2 := Audios(p, s, outlen, 2);
      assert a2 == s.(a := s.a.(outlen := outlen, decoded := s.a.decoded + outlen, pc := APass));
      assert Audios(p, s, outlen, 3) == AudioApply(p, a2, outlen);
    }
    if s.v.pc.VDecode? && s.v.dropDone {
      var v2 := Videos(p, s, pts, 2);
      assert v2 == s.(v := s.v.(pts := pts, decoded := s.v.decoded + 1, pc := VQueue));
      assert Videos(p, s, pts, 3) == VideoApply(p, v2, pts, false);
    }
  }

  /** The video side's drop discards no picture: every decoded picture has been
      queued, but for the one in hand. */
  lemma VideoQueuesEveryPicture(p: Setting, s: Sys, steps: seq<Step>)
    requires Init(s)
    ensures var t := After(p, s, steps);
            t.v.decoded == t.v.queued + (if t.v.pc in {VPublish, VDecode} then 0 else 1)
  {
    hide DropSize, After;
    Reached(p, s, steps);
  }

  // ------------------------------------------------------------- leaving it

  /** Accesses the audio thread can still make inside the drop loop once the host
      flag is up. */
  function AudioLeft(s: Sys): nat {
    match s.a.pc
    case ATest => if s.a.dropDone then 1 else 5
    case AGetFirstV => 4
    case AGetDoneFirst => 3
    case AGetDone => 3
    case ASetNoNeed => 2
    case ASetFinished => 1
    case _ => 0
  }

  function VideoLeft(s: Sys): nat {
    match s.v.pc
    case VTest => if s.v.dropDone then 1 else 5
    case VGetFirstA => 4
    case VGetDoneFirst => 3
    case VGetDone => 3
    case VSetNoNeed => 2
    case VSetFinished => 1
    case VSetTimeout => 1
    case _ => 0
  }

  /** With the flag up, each thread walks out of its loop, five accesses at most,
      and the flag stays up. */
  lemma FlagEndsThePhase(p: Setting, s: Sys, step: Step)
    requires s.host.dropDone
    ensures var t := Apply(p, s, step);
            && t.host.dropDone
            && AudioLeft(s) <= 5 && VideoLeft(s) <= 5
            && (step.AudioStep? && AudioLeft(s) > 0 ==> AudioLeft(t) < AudioLeft(s) && t.v == s.v)
            && (step.VideoStep? && VideoLeft(s) > 0 ==> VideoLeft(t) < VideoLeft(s) && t.a == s.a)
  {
    hide DropSize;
  }
}
