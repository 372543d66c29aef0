/**
 The video output thread in pts mode: wait for the clock to reach the first
 picture, take it, and show it unless its successor is already due.  A jump in
 time stamps suspends the waiting until a picture has been shown.

 Pictures carry known time stamps.  A pass of the loop is one step: pictures
 added behind its back land at the far end of the queue and would have been
 there before the pass just as well.
 */
module RenderLoop {
  import opened Common

  datatype Picture = Picture(id: nat, pts: int)

  /** What became of a picture: at which clock reading it left the queue, whether
      it was shown, and whether a time stamp jump had suspended the waiting. */
  datatype Fate = Fate(picture: Picture, clock: int, shown: bool, jumped: bool)

  function Pictures(fates: seq<Fate>): (p: seq<Picture>)
    ensures |p| == |fates|
    ensures forall i :: 0 <= i < |fates| ==> p[i] == fates[i].picture
  {
    seq(|fates|, i requires 0 <= i < |fates| => fates[i].picture)
  }

  /** A minute or more lies between two time stamps. */
  predicate Far(a: int, b: int) {
    a - b >= 5400000 || b - a >= 5400000
  }

  /** Nothing is shown early except over a jump, away from one of the two pictures
      before; and nothing is dropped unless the next picture pushed was due at the
      same reading. */
  predicate FateIsFair(pushed: seq<Picture>, fates: seq<Fate>, i: nat)
    requires i < |fates|
  {
    var f := fates[i];
    && (!f.jumped ==> f.picture.pts <= f.clock)
    && (!f.shown ==> !f.jumped && i + 1 < |pushed| && pushed[i + 1].pts <= f.clock)
    && (f.jumped ==> exists j :: i - 2 <= j < i && 0 <= j && Far(f.picture.pts, fates[j].picture.pts))
  }

  function Distance(a: int, b: int): nat {
    if a < b then b - a else a - b
  }

  lemma DistanceIsFar(a: int, b: int)
    ensures Distance(a, b) >= DISCONTINUE_THRESHOLD <==> Far(a, b)
  {
  }

  /** On a stream without jumps: nothing is shown before its time, and everything
      that is not shown was late, its successor being due as well. */
  lemma SteadyStreamIsOnTime(pushed: seq<Picture>, fates: seq<Fate>)
    requires forall i :: 0 <= i < |fates| ==> FateIsFair(pushed, fates, i)
    requires forall i, j :: 0 <= j < i < |fates| && i <= j + 2 ==> !Far(fates[i].picture.pts, fates[j].picture.pts)
    ensures forall i :: 0 <= i < |fates| ==>
      && fates[i].picture.pts <= fates[i].clock
      && (!fates[i].shown ==> i + 1 < |pushed| && pushed[i + 1].pts <= fates[i].clock)
  {
    forall i | 0 <= i < |fates|
      ensures fates[i].picture.pts <= fates[i].clock
      ensures !fates[i].shown ==> i + 1 < |pushed| && pushed[i + 1].pts <= fates[i].clock
    {
      assert FateIsFair(pushed, fates, i);
    }
  }

  /** What the last two pictures that left the queue leave behind. */
  predicate Follows(fates: seq<Fate>, lastValidPts: int, currentPts: int) {
    var n := |fates|;
    && (n == 0 ==> lastValidPts == -1)
    && (n > 0 ==> currentPts == fates[n - 1].picture.pts)
    && (lastValidPts != -1 ==>
          n > 0 && (lastValidPts == fates[n - 1].picture.pts || (n > 1 && lastValidPts == fates[n - 2].picture.pts)))
  }

  class Output {
    var queue: seq<Picture>
    var lastValidPts: int
    var currentPts: int
    var discontinue: bool

    ghost var pushed: seq<Picture>
    ghost var fates: seq<Fate>

    /** Every picture pushed has met its fate, in order, or is still queued. */
    ghost predicate Valid()
      reads this
    {
      && pushed == Pictures(fates) + queue
      && Follows(fates, lastValidPts, currentPts)
      && !discontinue
      && forall i :: 0 <= i < |fates| ==> FateIsFair(pushed, fates, i)
    }

    constructor ()
      ensures Valid() && queue == [] && pushed == [] && fates == []
    {
      queue, lastValidPts, currentPts, discontinue := [], -1, -1, false;
      pushed, fates := [], [];
    }

    method Push(p: Picture)
      requires Valid()
      modifies `queue, `pushed
      ensures Valid() && queue == old(queue) + [p] && pushed == old(pushed) + [p]
    {
      queue := queue + [p];
      pushed := pushed + [p];
      forall i | 0 <= i < |fates| ensures FateIsFair(pushed, fates, i) {
        assert FateIsFair(old(pushed), fates, i);
      }
    }

    /** One pass at clock reading `clock`: it takes the first picture exactly when
        it is due or lies a minute or more from the picture the loop remembers, and
        then drops it exactly when it does not and its successor is due as well. */
    method Pass(clock: int)
      requires Valid()
      modifies this
      ensures Valid() && pushed == old(pushed)
      ensures old(queue) == [] ==>
        queue == [] && fates == old(fates) && lastValidPts == old(lastValidPts) && currentPts == old(currentPts)
      ensures old(queue) != [] ==>
        var first, next, last := old(queue)[0], old(queue)[1..], old(lastValidPts);
        var jumped := last != -1 && first.pts != -1 && Far(first.pts, last);
        if !jumped && first.pts > clock then
          queue == old(queue) && fates == old(fates) && lastValidPts == last && currentPts == old(currentPts)
        else
          && queue == next && currentPts == first.pts
          && fates == old(fates) + [Fate(first, clock, jumped || next == [] || next[0].pts > clock, jumped)]
          && lastValidPts == (if last == -1 || jumped then first.pts else old(currentPts))
    {
      hide Pictures, FateIsFair;
      if queue == [] {
        return;
      }
      var pre := queue[0];
      if lastValidPts != -1 && pre.pts != -1 {
        DistanceIsFar(pre.pts, lastValidPts);
        if Distance(pre.pts, lastValidPts) >= DISCONTINUE_THRESHOLD {
          discontinue := true;
        }
      }
      if !discontinue {
        if clock < pre.pts {
          return;
        }
      }
      ghost var last := lastValidPts;
      var picture := queue[0];
      queue := queue[1..];
      if lastValidPts == -1 {
        lastValidPts, currentPts := picture.pts, picture.pts;
      } else {
        lastValidPts := currentPts;
        currentPts := picture.pts;
        if discontinue {
          lastValidPts := currentPts;
        }
      }
      ghost var jumped := discontinue;
      if !discontinue {
        if queue != [] {
          if clock >= queue[0].pts {
            Record(Fate(picture, clock, false, false), last);
            return;
          }
        }
      }
      Record(Fate(picture, clock, true, jumped), last);
      discontinue := false;
    }

    ghost method Record(f: Fate, last: int)
      requires pushed == Pictures(fates) + [f.picture] + queue
      requires forall i :: 0 <= i < |fates| ==> FateIsFair(pushed, fates, i)
      requires !f.jumped ==> f.picture.pts <= f.clock
      requires !f.shown ==> !f.jumped && queue != [] && queue[0].pts <= f.clock
      requires f.jumped ==> last != -1 && Far(f.picture.pts, last) && exists current :: Follows(fates, last, current)
      modifies `fates
      ensures fates == old(fates) + [f] && pushed == Pictures(fates) + queue
      ensures forall i :: 0 <= i < |fates| ==> FateIsFair(pushed, fates, i)
    {
      ghost var before := fates;
      fates := fates + [f];
      assert Pictures(fates) == Pictures(before) + [f.picture];
      forall i | 0 <= i < |fates| ensures FateIsFair(pushed, fates, i) {
        if i < |before| {
          EarlierStaysFair(pushed, before, f, i);
        } else {
          assert queue != [] ==> pushed[i + 1] == queue[0];
          if f.jumped {
            var n := |before|;
            var j := if last == before[n - 1].picture.pts then n - 1 else n - 2;
            assert fates[j] == before[j];
          }
        }
      }
    }

    lemma EarlierStaysFair(all: seq<Picture>, before: seq<Fate>, f: Fate, i: nat)
      requires i < |before| && FateIsFair(all, before, i)
      ensures FateIsFair(all, before + [f], i)
    {
      if before[i].jumped {
        var j :| i - 2 <= j < i && 0 <= j && Far(before[i].picture.pts, before[j].picture.pts);
        assert (before + [f])[j] == before[j];
      }
    }
  }
}
