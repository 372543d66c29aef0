/**
 The host's presentation clock and its choice of master.  With audio and video
 both present the clock follows audio while the two streams are close and video
 when they have come apart.

 Times are 90 kHz ticks as mathematical integers; a time that is not known is one
 of the two reserved values.  Readings of the machine clock, in us, are arguments.
 */
module HostClock {
  import opened Common

  const NO_PTS: int := -0x8000_0000_0000_0000
  const PTS_FREQ_MS: nat := 90
  const AVSYNC_THRESHOLD_MAX: nat := 5 * 1000

  datatype SyncMode = AudioMaster | VideoMaster | ExternalClock

  predicate Known(t: int) {
    t != -1 && t != NO_PTS
  }

  function Abs(x: int): nat {
    if x < 0 then -x else x
  }

  /** Division as C does it, towards zero. */
  function Quotient(a: int, b: nat): int
    requires b > 0
  {
    if a < 0 then -((-a) / b) else a / b
  }

  /** A quotient is what leaves a remainder of the dividend's sign, less than the
      divisor. */
  lemma QuotientLeavesRest(a: int, b: nat)
    requires b > 0
    ensures a >= 0 ==> 0 <= a - b * Quotient(a, b) < b
    ensures a <= 0 ==> 0 <= b * Quotient(a, b) - a < b
  {
  }

  /** The master after a series of gaps between audio and video, in ticks: from
      5001 ms on video, below 5000 ms audio, and whoever it was in between. */
  function ModeAfter(judged: seq<int>): (mode: SyncMode)
    ensures mode != ExternalClock
  {
    if judged == [] then AudioMaster
    else
      var last := judged[|judged| - 1];
      if last >= 450090 || last <= -450090 then VideoMaster
      else if -450000 < last < 450000 then AudioMaster
      else ModeAfter(judged[..|judged| - 1])
  }

  /** The last gap that is not within the millisecond at the limit decides; such a
      one leaves things as they are, on whichever side they were. */
  lemma {:induction false} LastDistanceDecides(judged: seq<int>, i: nat)
    requires i < |judged| && (judged[i] >= 450090 || judged[i] <= -450090 || -450000 < judged[i] < 450000)
    requires forall j :: i < j < |judged| ==> 450000 <= judged[j] < 450090 || -450090 < judged[j] <= -450000
    ensures ModeAfter(judged).VideoMaster? <==> judged[i] >= 450090 || judged[i] <= -450090
    decreases |judged|
  {
    if i < |judged| - 1 {
      LastDistanceDecides(judged[..|judged| - 1], i);
    }
  }

  lemma OneMoreJudged(judged: seq<int>, gap: int)
    ensures ModeAfter(judged + [gap]) ==
      if gap >= 450090 || gap <= -450090 then VideoMaster
      else if -450000 < gap < 450000 then AudioMaster
      else ModeAfter(judged)
  {
    assert (judged + [gap])[..|judged|] == judged;
  }

  /** A measured distance in milliseconds, and what the limits make of it. */
  lemma MeasuredDistance(gap: int)
    ensures var ms := Quotient(gap, PTS_FREQ_MS);
            && Measures(ms, gap)
            && (Abs(ms) > AVSYNC_THRESHOLD_MAX <==> gap >= 450090 || gap <= -450090)
            && (Abs(ms) < AVSYNC_THRESHOLD_MAX <==> -450000 < gap < 450000)
  {
    QuotientLeavesRest(gap, PTS_FREQ_MS);
  }

  /** `ms` is the gap in whole milliseconds of 90 ticks, counted towards zero. */
  predicate Measures(ms: int, gap: int) {
    if gap >= 0 then 90 * ms <= gap < 90 * (ms + 1) else 90 * (ms - 1) < gap <= 90 * ms
  }

  lemma MeasuredOnce(gap: int, a: int, b: int)
    requires Measures(a, gap) && Measures(b, gap)
    ensures a == b
  {
  }

  class Host {
    const hasVideo: bool
    const syncEnable: bool
    var syncMode: SyncMode
    var avDiff: int
    var audio: int
    var audioLast: int
    var audioJumped: bool
    var video: int
    var videoLast: int
    var videoJumped: bool
    var sysTime: int
    var sysTimeLast: int
    var sysTimeFirst: int
    var sysTimeStart: int
    var sysTimeStartTime: int

    /** The gaps, in ticks, on which the sync mode was decided, oldest first. */
    ghost var judged: seq<int>

    ghost predicate Valid()
      reads this
    {
      syncMode == ModeAfter(judged)
    }

    constructor (hasVideo: bool, syncEnable: bool)
      ensures Valid() && this.hasVideo == hasVideo && this.syncEnable == syncEnable && judged == []
      ensures sysTime == sysTimeStart == audio == video == -0x8000_0000_0000_0000
      ensures syncMode == AudioMaster && !audioJumped && !videoJumped && avDiff == 0
    {
      this.hasVideo, this.syncEnable := hasVideo, syncEnable;
      syncMode, avDiff := AudioMaster, 0;
      audio, audioLast, audioJumped := NO_PTS, NO_PTS, false;
      video, videoLast, videoJumped := NO_PTS, NO_PTS, false;
      sysTime, sysTimeLast, sysTimeFirst, sysTimeStart, sysTimeStartTime := NO_PTS, NO_PTS, NO_PTS, NO_PTS, -1;
      judged := [];
    }

    method ResetSystime(time: int, now: int)
      modifies `sysTime, `sysTimeLast, `sysTimeStart, `sysTimeStartTime
      ensures sysTime == time && sysTimeStart == time && sysTimeStartTime == now && sysTimeLast == old(sysTime)
    {
      sysTimeLast := sysTime;
      sysTimeStart := time;
      sysTime := time;
      sysTimeStartTime := now;
    }

    /** The clock runs on from where it was last set, 9 ticks per 100 us. */
    method UpdateSystime(time: int, now: int)
      requires Valid()
      modifies `sysTime, `sysTimeLast, `sysTimeFirst, `sysTimeStart, `sysTimeStartTime
      ensures Valid()
      ensures if old(sysTime) in {-1, -0x8000_0000_0000_0000} then
                && sysTime == sysTimeStart == sysTimeFirst == sysTimeLast == time && sysTimeStartTime == now
              else
                && sysTimeStart == old(sysTimeStart) && sysTimeStartTime == old(sysTimeStartTime)
                && sysTimeFirst == old(sysTimeFirst) && sysTimeLast == old(sysTime)
                && var ticks, us := sysTime - sysTimeStart, now - sysTimeStartTime;
                   if us >= 0 then 0 <= 9 * us - 100 * ticks < 100 else 0 <= 100 * ticks - 9 * us < 100
    {
      if !Known(sysTime) {
        sysTime, sysTimeFirst := time, time;
        sysTimeStart, sysTimeLast := time, time;
        sysTimeStartTime := now;
        return;
      }
      var elapsed := now - sysTimeStartTime;
      QuotientLeavesRest(elapsed * 9, 100);
      sysTimeLast := sysTime;
      sysTime := sysTimeStart + Quotient(elapsed * 9, 100);
    }

    /** An audio time arrives.  With sync on, the output open and the clock known,
        the clock is afterwards within 100 ms of it, moved only if it was not,
        unless the streams are more than five seconds apart: then it does not move
        at all. */
    method UpdateApts(apts: int, outputClosed: bool, now: int)
      requires Valid()
      modifies `audio, `audioLast, `audioJumped, `avDiff, `syncMode, `judged,
               `sysTime, `sysTimeLast, `sysTimeStart, `sysTimeStartTime
      ensures Valid()
      ensures audio == apts && audioLast == old(audio)
      ensures audioJumped == (old(audioJumped) || apts - old(audio) >= 486000000 || old(audio) - apts >= 486000000)
      ensures !hasVideo ==> sysTime == apts
      ensures !hasVideo ==> sysTimeLast == old(sysTimeLast) && sysTimeStartTime == old(sysTimeStartTime)
      ensures !hasVideo && old(sysTimeStart) == -0x8000_0000_0000_0000 ==> sysTimeStart == apts
      ensures !hasVideo && old(sysTimeStart) != -0x8000_0000_0000_0000 ==> sysTimeStart == old(sysTimeStart)
      ensures hasVideo && sysTime == old(sysTime) ==>
                sysTimeStart == old(sysTimeStart) && sysTimeStartTime == old(sysTimeStartTime)
                && sysTimeLast == old(sysTimeLast)
      ensures hasVideo && sysTime != old(sysTime) ==>
                sysTimeStart == sysTime && sysTimeStartTime == now && sysTimeLast == old(sysTime)
      ensures if hasVideo && syncEnable && !outputClosed then Measures(avDiff, apts - video) else avDiff == old(avDiff)
      ensures var judges := hasVideo && syncEnable && !outputClosed
                            && old(sysTime) !in {-1, -0x8000_0000_0000_0000};
              var gap, off := apts - video, old(sysTime) - apts;
              && judged == old(judged) + (if judges then [gap] else [])
              && (!judges ==> syncMode == old(syncMode) && (hasVideo ==> sysTime == old(sysTime)))
              && (judges ==> sysTime == if -450090 < gap < 450090 && !(-9000 < off < 9000) then apts else old(sysTime))
    {
      hide Quotient, Measures, ModeAfter;
      if Abs(apts - audio) / PTS_FREQ_MS >= DISCONTINUE_THRESHOLD {
        audioJumped := true;
      }
      audioLast := audio;
      audio := apts;
      if !hasVideo {
        sysTime := apts;
        if sysTimeStart == NO_PTS {
          sysTimeStart := apts;
        }
        return;
      }
      if !syncEnable {
        return;
      }
      if outputClosed {
        return;
      }
      MeasuredDistance(audio - video);
      avDiff := Quotient(audio - video, PTS_FREQ_MS);
      if !Known(sysTime) {
        return;
      }
      OneMoreJudged(judged, audio - video);
      judged := judged + [audio - video];
      if Abs(avDiff) > AVSYNC_THRESHOLD_MAX {
        syncMode := VideoMaster;
        return;
      }
      if syncMode.VideoMaster? && Abs(avDiff) < AVSYNC_THRESHOLD_MAX {
        syncMode := AudioMaster;
      }
      if Abs(apts - sysTime) / PTS_FREQ_MS < AVSYNC_THRESHOLD {
        return;
      }
      ResetSystime(apts, now);
    }

    /** A video time arrives.  With sync off, or with the streams more than five
        seconds apart, the clock is afterwards within 100 ticks of it, moved only if
        it was not; else it does not move. */
    method UpdateVpts(vpts: int, now: int)
      requires Valid()
      modifies `video, `videoLast, `videoJumped, `avDiff, `syncMode, `judged,
               `sysTime, `sysTimeLast, `sysTimeStart, `sysTimeStartTime
      ensures Valid()
      ensures video == vpts && videoLast == old(video)
      ensures videoJumped == (old(videoJumped) || vpts - old(video) >= 486000000 || old(video) - vpts >= 486000000)
      ensures Measures(avDiff, audio - vpts)
      ensures sysTime == old(sysTime) ==>
                sysTimeStart == old(sysTimeStart) && sysTimeStartTime == old(sysTimeStartTime)
                && sysTimeLast == old(sysTimeLast)
      ensures sysTime != old(sysTime) ==>
                sysTimeStart == sysTime && sysTimeStartTime == now && sysTimeLast == old(sysTime)
      ensures var known := old(sysTime) !in {-1, -0x8000_0000_0000_0000};
              var gap, off := audio - vpts, old(sysTime) - vpts;
              && judged == old(judged) + (if known && syncEnable then [gap] else [])
              && (!(known && syncEnable) ==> syncMode == old(syncMode))
              && sysTime == if known && (!syncEnable || !(-450090 < gap < 450090)) && !(-100 <= off <= 100) then vpts
                            else old(sysTime)
    {
      hide Quotient, Measures, ModeAfter;
      if Abs(vpts - video) / PTS_FREQ_MS >= DISCONTINUE_THRESHOLD {
        videoJumped := true;
      }
      videoLast := video;
      video := vpts;
      MeasuredDistance(audio - video);
      avDiff := Quotient(audio - video, PTS_FREQ_MS);
      if !Known(sysTime) {
        return;
      }
      if !syncEnable {
        if Abs(sysTime - vpts) > AVSYNC_THRESHOLD {
          ResetSystime(vpts, now);
        }
        return;
      }
      OneMoreJudged(judged, audio - video);
      judged := judged + [audio - video];
      if Abs(avDiff) > AVSYNC_THRESHOLD_MAX {
        syncMode := VideoMaster;
        if Abs(sysTime - vpts) > AVSYNC_THRESHOLD {
          ResetSystime(vpts, now);
        }
        return;
      }
      if syncMode.VideoMaster? && Abs(avDiff) < AVSYNC_THRESHOLD_MAX {
        syncMode := AudioMaster;
      }
    }
  }
}
