/**
 Finding ADTS frames in a probe buffer (section 6.2 of ISO/IEC 13818-7): the
 probe, which follows chains of headers, and the duration estimate, whose scan
 may step back after a header it cannot use.
 */
module AdtsScan {
  import opened Common
  import opened Circular

  /** Sync word and layer bits, as the probe tests them. */
  predicate HasSync(d: seq<Byte>, at: nat)
    requires at + 1 < |d|
  {
    d[at] == 0xff && d[at + 1] & 0xf6 == 0xf0
  }

  /** The frame length of `aac_parse_frame`. */
  function ParsedLength(b3: Byte, b4: Byte, b5: Byte): bv32 {
    (((b3 & 0x03) as bv32) << 11) | ((b4 as bv32) << 3) | ((b5 >> 5) as bv32)
  }

  /** The frame length of the probe, cut out of a 32-bit word. */
  function ProbedLength(b3: Byte, b4: Byte, b5: Byte, b6: Byte): bv32 {
    var word := ((b3 as bv32) << 24) | ((b4 as bv32) << 16) | ((b5 as bv32) << 8) | (b6 as bv32);
    (word >> 13) & 0x1fff
  }

  lemma LengthsAgree(b3: Byte, b4: Byte, b5: Byte, b6: Byte)
    ensures ProbedLength(b3, b4, b5, b6) == ParsedLength(b3, b4, b5)
  {
  }

  /** `aac_parse_frame`: the length, or zero where there is no usable header. */
  function ParseFrame(d: seq<Byte>, at: nat): nat
    requires at + 6 < |d|
  {
    if !HasSync(d, at) || (d[at + 2] >> 2) & 0x0f > 11 then 0
    else ParsedLength(d[at + 3], d[at + 4], d[at + 5]) as nat
  }

  function Length(d: seq<Byte>, at: nat): nat
    requires at + 6 < |d|
  {
    ParsedLength(d[at + 3], d[at + 4], d[at + 5]) as nat
  }

  /** A header the probe accepts: sync, and a frame no shorter than its header. */
  predicate IsHeader(d: seq<Byte>, at: nat)
    requires at + 7 < |d|
  {
    HasSync(d, at) && Length(d, at) >= 7
  }

  /** The frame's end, clipped to the end of the scan. */
  function NextAt(d: seq<Byte>, at: nat): (next: nat)
    requires at + 7 < |d| && IsHeader(d, at)
    ensures at < next <= |d| - 7
  {
    if Length(d, at) < |d| - 7 - at then at + Length(d, at) else |d| - 7
  }

  /** How many frames follow each other without a gap from `at` on, and where the
      chain breaks. */
  function Chain(d: seq<Byte>, at: nat): (r: (nat, nat))
    requires |d| >= 7
    ensures at <= |d| - 7 ==> at <= r.1 <= |d| - 7
    decreases |d| - at
  {
    if at + 7 < |d| && IsHeader(d, at) then
      var (n, end) := Chain(d, NextAt(d, at));
      (n + 1, end)
    else (0, at)
  }

  /** A chain is maximal: each of its frames is a header and it stops where there
      is none. */
  lemma {:induction false} ChainIsMaximal(d: seq<Byte>, at: nat)
    requires |d| >= 7 && at <= |d| - 7
    ensures var (n, end) := Chain(d, at);
            && (n == 0 <==> end == at)
            && (end + 7 < |d| ==> !IsHeader(d, end))
            && (n > 0 ==> at + 7 < |d| && IsHeader(d, at) && Chain(d, NextAt(d, at)) == (n - 1, end))
    decreases |d| - at
  {
    if at + 7 < |d| && IsHeader(d, at) {
      ChainIsMaximal(d, NextAt(d, at));
    }
  }

  // ----------------------------------------------------- headers as they are sent

  /** A header as a sender writes it: sync word, layer zero, with the profile bit
      and the protection bit; sampling rate index; 13 bits of frame length. */
  function Header(mpeg2: bool, noCrc: bool, profile: bv8, rate: bv8, channels: bv8, len: bv32, rest: bv8,
                  blocks: Byte): (h: seq<Byte>)
    ensures |h| == 7
  {
    [ 0xff,
      0xf0 | (if mpeg2 then 0x08 else 0) | (if noCrc then 0x01 else 0),
      (profile << 6) | (rate << 2),
      (channels << 2) | (((len >> 11) & 3) as Byte),
      ((len >> 3) & 0xff) as Byte,
      (((len & 7) as Byte) << 5) | rest,
      blocks ]
  }

  lemma LengthInverts(channels: bv8, len: bv32, rest: bv8)
    requires len < 0x2000 && rest < 0x20
    ensures ParsedLength((channels << 2) | (((len >> 11) & 3) as Byte), ((len >> 3) & 0xff) as Byte,
                         (((len & 7) as Byte) << 5) | rest) == len
  {
  }

  lemma RateInverts(profile: bv8, rate: bv8)
    requires rate < 16
    ensures (((profile << 6) | (rate << 2)) >> 2) & 0x0f == rate
  {
  }

  /** Four second bytes make a header: layer zero, profile and protection free. */
  lemma SyncIff(d: seq<Byte>, at: nat)
    requires at + 1 < |d|
    ensures HasSync(d, at) <==> d[at] == 0xff && d[at + 1] in {0xf0, 0xf1, 0xf8, 0xf9}
  {
  }

  /** Both parsers recover what a sender wrote; the header parser turns down the
      four rate indices without a rate. */
  lemma HeaderRoundTrip(d: seq<Byte>, at: nat, mpeg2: bool, noCrc: bool, profile: bv8, rate: bv8, channels: bv8,
                        len: bv32, rest: bv8, blocks: Byte)
    requires at + 7 <= |d| && d[at..at + 7] == Header(mpeg2, noCrc, profile, rate, channels, len, rest, blocks)
    requires rate < 16 && len < 0x2000 && rest < 0x20
    ensures HasSync(d, at) && Length(d, at) == len as nat
    ensures ParseFrame(d, at) == if rate < 12 then len as nat else 0
  {
    var h := Header(mpeg2, noCrc, profile, rate, channels, len, rest, blocks);
    assert forall i :: 0 <= i < 7 ==> d[at + i] == d[at..at + 7][i] == h[i];
    hide ParsedLength, HasSync;
    LengthInverts(channels, len, rest);
    RateInverts(profile, rate);
    assert d[at] == h[0] && d[at + 1] == h[1] && d[at + 2] == h[2] && d[at + 3] == h[3];
    assert d[at + 4] == h[4] && d[at + 5] == h[5];
    SyncIff(d, at);
    RateLimit(rate);
  }

  lemma RateLimit(rate: bv8)
    ensures rate > 11 <==> !(rate < 12)
  {
  }

  /** Frames of these lengths lie one behind the other from `at` on. */
  predicate FramesAt(d: seq<Byte>, at: nat, lens: seq<nat>)
    decreases |lens|
  {
    lens == [] ||
    (at + 7 < |d| && HasSync(d, at) && Length(d, at) == lens[0] && lens[0] >= 7 && FramesAt(d, at + lens[0], lens[1..]))
  }

  function Sum(lens: seq<nat>): nat {
    if lens == [] then 0 else lens[0] + Sum(lens[1..])
  }

  /** The chain goes through every frame of a stream, from each to the next. */
  lemma {:induction false} ChainCountsFrames(d: seq<Byte>, at: nat, lens: seq<nat>)
    requires FramesAt(d, at, lens) && at + Sum(lens) + 7 <= |d|
    ensures var rest := Chain(d, at + Sum(lens));
            Chain(d, at) == (|lens| + rest.0, rest.1)
    decreases |lens|
  {
    hide HasSync, Length;
    if lens != [] {
      ChainCountsFrames(d, at + lens[0], lens[1..]);
      assert NextAt(d, at) == at + lens[0];
    }
  }

  /** Where the probe looks for a chain: at offsets that no chain it has found
      before covers or ends at. */
  ghost predicate Tried(d: seq<Byte>, p: nat)
    requires |d| >= 7
    decreases p
  {
    forall q :: 0 <= q < p && Tried(d, q) ==> Chain(d, q).1 < p
  }

  /** Behind a chain that was tried comes the next start, and none before it. */
  lemma NextTried(d: seq<Byte>, at: nat)
    requires |d| >= 7 && at <= |d| - 7 && Tried(d, at)
    ensures var next := Chain(d, at).1 + 1;
            Tried(d, next) && forall p :: at < p < next ==> !Tried(d, p)
  {
    hide Chain, IsHeader;
    var end := Chain(d, at).1;
    forall p | at < p <= end ensures !Tried(d, p) {
      assert Tried(d, at) && !(Chain(d, at).1 < p);
    }
  }

  /** No start in front of `to` has a chain of more than n frames. */
  ghost predicate NoneLonger(d: seq<Byte>, to: nat, n: nat)
    requires |d| >= 7
  {
    forall p :: 0 <= p < to && Tried(d, p) ==> Chain(d, p).0 <= n
  }

  ghost predicate OneHas(d: seq<Byte>, to: nat, n: nat)
    requires |d| >= 7
  {
    exists p :: 0 <= p < to && Tried(d, p) && Chain(d, p).0 == n
  }

  /** The probe is about to try `at`; the longest chain from the starts in front of
      it has `most` frames, the one from the very start `first`. */
  ghost predicate Scanned(d: seq<Byte>, at: nat, most: nat, first: nat)
    requires |d| >= 7
  {
    && Tried(d, at)
    && NoneLonger(d, at, most)
    && (most > 0 ==> OneHas(d, at, most))
    && (at > 0 ==> first == Chain(d, 0).0)
  }

  lemma ScannedGrows(d: seq<Byte>, at: nat, most: nat, first: nat)
    requires |d| >= 7 && at <= |d| - 7 && Scanned(d, at, most, first)
    ensures var (frames, end) := Chain(d, at);
            Scanned(d, end + 1, if most > frames then most else frames, if at == 0 then frames else first)
  {
    hide Chain, Tried, NoneLonger, OneHas;
    var (frames, end) := Chain(d, at);
    NextTried(d, at);
    NoneLongerGrows(d, at, end + 1, most);
    OneHasGrows(d, at, end + 1, most);
  }

  lemma NoneLongerGrows(d: seq<Byte>, at: nat, to: nat, most: nat)
    requires |d| >= 7 && NoneLonger(d, at, most) && at < to && forall p :: at < p < to ==> !Tried(d, p)
    ensures NoneLonger(d, to, if most > Chain(d, at).0 then most else Chain(d, at).0)
  {
    hide Chain, Tried;
  }

  lemma OneHasGrows(d: seq<Byte>, at: nat, to: nat, most: nat)
    requires |d| >= 7 && at < to && Tried(d, at)
    ensures OneHas(d, to, Chain(d, at).0)
    ensures OneHas(d, at, most) ==> OneHas(d, to, most)
  {
    hide Chain, Tried;
  }

  /** More than five hundred frames in a row from a start that is tried. */
  ghost predicate LongChainTried(d: seq<Byte>)
    requires |d| >= 7
  {
    exists p :: 0 <= p < |d| - 7 && Tried(d, p) && Chain(d, p).0 > 500
  }

  lemma ScanDecides(d: seq<Byte>, at: nat, most: nat, first: nat)
    requires |d| >= 10 && at >= |d| - 7 && Scanned(d, at, most, first)
    ensures most > 500 <==> LongChainTried(d)
    ensures first == Chain(d, 0).0
  {
    hide Tried;
    if most > 500 {
      var p :| 0 <= p < at && Tried(d, p) && Chain(d, p).0 == most;
      assert p < |d| - 7;
    }
  }

  /** `demuxer_aac_probe`: an AAC stream starts with three frames in a row, or has
      more than five hundred from a start that is tried. */
  method Probe(d: seq<Byte>) returns (isAac: bool)
    ensures isAac <==> |d| >= 10 && (Chain(d, 0).0 >= 3 || LongChainTried(d))
  {
    if |d| < 10 {
      return false;
    }
    hide *;
    var maxFrames, firstFrames, buf := 0, 0, 0;
    FirstTried(d);
    while buf < |d| - 7
      invariant Scanned(d, buf, maxFrames, firstFrames)
      decreases |d| - 6 - buf
    {
      ScannedGrows(d, buf, maxFrames, firstFrames);
      var frames, buf2 := FollowChain(d, buf);
      maxFrames := if maxFrames > frames then maxFrames else frames;
      firstFrames := if buf == 0 then frames else firstFrames;
      buf := buf2 + 1;
    }
    ScanDecides(d, buf, maxFrames, firstFrames);
    isAac := firstFrames >= 3 || maxFrames > 500;
  }

  lemma FirstTried(d: seq<Byte>)
    requires |d| >= 7
    ensures Tried(d, 0) && Scanned(d, 0, 0, 0)
  {
  }

  /** The probe's inner loop. */
  method FollowChain(d: seq<Byte>, buf: nat) returns (frames: nat, buf2: nat)
    requires buf + 7 < |d|
    ensures frames == Chain(d, buf).0 && buf2 == Chain(d, buf).1 && buf <= buf2 <= |d| - 7
  {
    hide HasSync, Length, ProbedLength, Chain;
    var end := |d| - 7;
    buf2, frames := buf, 0;
    while buf2 < end
      invariant buf <= buf2 <= end
      invariant Chain(d, buf) == (frames + Chain(d, buf2).0, Chain(d, buf2).1)
      decreases end - buf2
    {
      ChainUnfolds(d, buf2);
      if !HasSync(d, buf2) {
        break;
      }
      LengthAt(d, buf2);
      var fsize := ProbedLength(d[buf2 + 3], d[buf2 + 4], d[buf2 + 5], d[buf2 + 6]) as nat;
      if fsize < 7 {
        break;
      }
      buf2 := buf2 + Min(fsize, end - buf2);
      frames := frames + 1;
    }
    if buf2 == end {
      ChainUnfolds(d, buf2);
    }
  }

  /** A header that claims eight bytes, and behind it n frames of seven. */
  function LateFrames(n: nat): (d: seq<Byte>)
    ensures |d| == 7 * n + 14
  {
    seq(7 * n + 14, i requires 0 <= i => FrameByte(i))
  }

  function FrameByte(i: nat): Byte {
    if i % 7 == 0 then 0xff
    else if i % 7 == 1 then 0xf1
    else if i % 7 == 4 then (if i < 7 then 0x01 else 0x00)
    else if i % 7 == 5 then (if i < 7 then 0x00 else 0xe0)
    else 0x00
  }

  lemma LateHeader(n: nat, at: nat)
    requires at + 7 < 7 * n + 14
    ensures var d := LateFrames(n);
            if at % 7 != 0 then !HasSync(d, at)
            else HasSync(d, at) && Length(d, at) == if at == 0 then 8 else 7
  {
    hide FrameByte, ParsedLength;
    var d := LateFrames(n);
    FrameBytes(at);
    SmallLengths();
    assert d[at] == FrameByte(at) && d[at + 1] == FrameByte(at + 1) && d[at + 3] == FrameByte(at + 3);
    assert d[at + 4] == FrameByte(at + 4) && d[at + 5] == FrameByte(at + 5);
  }

  lemma FrameBytes(at: nat)
    ensures FrameByte(at) == 0xff <==> at % 7 == 0
    ensures at % 7 == 0 ==>
      && FrameByte(at + 1) == 0xf1 && FrameByte(at + 3) == 0
      && FrameByte(at + 4) == (if at == 0 then 0x01 else 0x00)
      && FrameByte(at + 5) == (if at == 0 then 0x00 else 0xe0)
  {
    if at % 7 == 0 {
      assert (at + 1) % 7 == 1 && (at + 3) % 7 == 3 && (at + 4) % 7 == 4 && (at + 5) % 7 == 5;
    }
  }

  lemma SmallLengths()
    ensures ParsedLength(0x00, 0x01, 0x00) == 8 && ParsedLength(0x00, 0x00, 0xe0) == 7
  {
  }

  lemma {:induction false} LateChain(n: nat, k: nat)
    requires 1 <= k <= n + 1
    ensures Chain(LateFrames(n), 7 * k) == (n + 1 - k, 7 * n + 7)
    decreases n + 1 - k
  {
    hide LateFrames, HasSync, Length;
    if k <= n {
      LateHeader(n, 7 * k);
      LateChain(n, k + 1);
    }
  }

  /** A chain the probe misses: 501 frames follow each other, but the first lies
      under a header that claims eight bytes, and no start that is tried has more
      than the other 500. */
  lemma HiddenChainRun()
    ensures var d := LateFrames(501);
            && Chain(d, 7).0 == 501
            && Chain(d, 0).0 < 3
            && !LongChainTried(d)
  {
    hide LateFrames, Chain, Tried;
    var d := LateFrames(501);
    LateChain(501, 1);
    FalseSync(501);
    forall p | 0 <= p < |d| - 7 && Tried(d, p)
      ensures Chain(d, p).0 <= 500
    {
      LateStart(501, p);
    }
  }

  lemma FalseSync(n: nat)
    requires n > 0
    ensures Chain(LateFrames(n), 0) == (1, 8)
  {
    hide LateFrames, HasSync, Length;
    LateHeader(n, 0);
    LateHeader(n, 8);
    assert Chain(LateFrames(n), 8) == (0, 8);
  }

  lemma LateStart(n: nat, p: nat)
    requires n > 1 && p < 7 * n + 7 && Tried(LateFrames(n), p)
    ensures Chain(LateFrames(n), p).0 <= n - 1
  {
    hide LateFrames, HasSync, Length;
    FirstTried(LateFrames(n));
    FalseSync(n);
    LateHeader(n, p);
    if p % 7 == 0 && p > 0 {
      LateChain(n, p / 7);
    }
  }

  lemma LengthAt(d: seq<Byte>, at: nat)
    requires at + 6 < |d|
    ensures ProbedLength(d[at + 3], d[at + 4], d[at + 5], d[at + 6]) as nat == Length(d, at)
  {
    hide ParsedLength, ProbedLength;
    LengthsAgree(d[at + 3], d[at + 4], d[at + 5], d[at + 6]);
  }

  lemma ChainUnfolds(d: seq<Byte>, at: nat)
    requires |d| >= 7
    ensures Chain(d, at) ==
      if at + 7 < |d| && IsHeader(d, at) then (Chain(d, NextAt(d, at)).0 + 1, Chain(d, NextAt(d, at)).1)
      else (0, at)
  {
  }

  /** Offset p lies behind the first byte of a counted frame, within it. */
  predicate Covered(d: seq<Byte>, headers: seq<nat>, p: nat) {
    exists i :: 0 <= i < |headers| && headers[i] + 6 < |d| && headers[i] < p < headers[i] + ParseFrame(d, headers[i])
  }

  /** Every usable header in front of `stop` is counted or lies inside a counted
      frame. */
  ghost predicate AllFound(d: seq<Byte>, headers: seq<nat>, stop: nat) {
    forall p :: 0 <= p < stop && p + 7 < |d| && ParseFrame(d, p) > 0 ==> p in headers || Covered(d, headers, p)
  }

  /** The counted headers are usable, their frames leave room in front of the end and
      lie one behind the other, all in front of `stop`. */
  ghost predicate AllHeaders(d: seq<Byte>, headers: seq<nat>, stop: nat) {
    && (forall i :: 0 <= i < |headers| ==>
          && headers[i] + 7 < |d| && ParseFrame(d, headers[i]) > 0
          && headers[i] + 8 + ParseFrame(d, headers[i]) < |d| - 7
          && headers[i] + ParseFrame(d, headers[i]) <= stop)
    && (forall i, j :: 0 <= i < j < |headers| ==> headers[i] + ParseFrame(d, headers[i]) <= headers[j])
  }

  /** The scan of `estimate_duration`.  It counts usable headers only, in order,
      and misses none up to the point where it stops: two bytes from the end, or at
      the first header whose frame reaches there.  It steps back when a header is of no use,
      yet never to where it has been before, so it ends. */
  method EstimateScan(d: seq<Byte>) returns (headers: seq<nat>, size: nat, ghost stop: nat)
    ensures AllHeaders(d, headers, stop) && AllFound(d, headers, stop)
    ensures stop + 2 >= |d| - 7 || (HasSync(d, stop) && stop + 8 + ParseFrame(d, stop) >= |d| - 7)
    ensures size == TotalLength(d, headers)
  {
    hide AllHeaders, AllFound, ParseFrame, TotalLength;
    headers, size, stop := [], 0, 0;
    NoneFound(d);
    if |d| < 7 {
      return;
    }
    var end := |d| - 7;
    var buf2 := 0;
    while buf2 < end
      invariant 0 <= buf2
      invariant AllHeaders(d, headers, buf2) && AllFound(d, headers, buf2)
      invariant size == TotalLength(d, headers)
      decreases end - buf2
    {
      var c1: Byte := 0;
      ghost var from := buf2;
      while c1 != 0xff
        invariant from <= buf2 < end
        invariant forall p :: from <= p < buf2 - 1 ==> d[p] != 0xff
        invariant if c1 == 0xff then from < buf2 && d[buf2 - 1] == 0xff else buf2 > from ==> d[buf2 - 1] != 0xff
        decreases end - buf2
      {
        if buf2 + 1 >= end {
          break;
        }
        c1 := d[buf2];
        buf2 := buf2 + 1;
      }
      stop := if c1 == 0xff then buf2 - 1 else buf2;
      NoSyncBetween(d, headers, from, stop);
      if buf2 + 1 >= end {
        return;
      }
      if d[buf2] & 0xf6 != 0xf0 {
        NoSyncBetween(d, headers, stop, buf2);
        continue;
      }
      var start := buf2 - 1;
      buf2 := buf2 + 1;
      if buf2 + 6 >= end {
        return;
      }
      buf2 := buf2 + 6;
      var len := ParseFrame(d, start);
      if buf2 + len >= end {
        return;
      }
      if len > 0 {
        FrameCounted(d, headers, start);
        headers := headers + [start];
        size := size + len;
        buf2 := buf2 + len - 8;
      } else {
        buf2 := buf2 - 6;
        SecondByteIsNoSync(d[start + 1]);
        NoSyncBetween(d, headers, start, buf2);
      }
    }
    stop := buf2;
  }

  lemma NoneFound(d: seq<Byte>)
    ensures AllHeaders(d, [], 0) && AllFound(d, [], 0) && TotalLength(d, []) == 0
  {
  }

  lemma SecondByteIsNoSync(c2: Byte)
    ensures c2 & 0xf6 == 0xf0 ==> c2 != 0xff
  {
  }

  /** Offsets without a usable header need not be counted. */
  lemma NoSyncBetween(d: seq<Byte>, headers: seq<nat>, from: nat, to: nat)
    requires AllHeaders(d, headers, from) && AllFound(d, headers, from) && from <= to
    requires forall p :: from <= p < to && p + 7 < |d| ==>
      d[p] != 0xff || d[p + 1] & 0xf6 != 0xf0 || ParseFrame(d, p) == 0
    ensures AllHeaders(d, headers, to) && AllFound(d, headers, to)
  {
  }

  lemma FrameCounted(d: seq<Byte>, headers: seq<nat>, start: nat)
    requires AllHeaders(d, headers, start) && AllFound(d, headers, start)
    requires start + 7 < |d| && ParseFrame(d, start) > 0 && start + 8 + ParseFrame(d, start) < |d| - 7
    ensures var more := headers + [start];
            var next := start + ParseFrame(d, start);
            && AllHeaders(d, more, next) && AllFound(d, more, next)
            && TotalLength(d, more) == TotalLength(d, headers) + ParseFrame(d, start)
  {
    hide ParseFrame, AllHeaders, Covered;
    var more := headers + [start];
    assert more[..|headers|] == headers;
    AllHeadersGrows(d, headers, start);
    forall p | 0 <= p < start + ParseFrame(d, start) && p + 7 < |d| && ParseFrame(d, p) > 0
      ensures p in more || Covered(d, more, p)
    {
      if p < start && p !in headers {
        CoveredStays(d, headers, start, p);
      } else if p < start {
        var i :| 0 <= i < |headers| && headers[i] == p;
        assert more[i] == p;
      } else {
        assert more[|headers|] == start;
        LastCovers(d, headers, start, p);
      }
    }
  }

  lemma AllHeadersGrows(d: seq<Byte>, headers: seq<nat>, start: nat)
    requires AllHeaders(d, headers, start) && start + 7 < |d| && ParseFrame(d, start) > 0
    requires start + 8 + ParseFrame(d, start) < |d| - 7
    ensures AllHeaders(d, headers + [start], start + ParseFrame(d, start))
  {
    hide ParseFrame;
  }

  lemma CoveredStays(d: seq<Byte>, headers: seq<nat>, start: nat, p: nat)
    requires Covered(d, headers, p)
    ensures Covered(d, headers + [start], p)
  {
    hide ParseFrame;
    var i :| 0 <= i < |headers| && headers[i] + 6 < |d| && headers[i] < p < headers[i] + ParseFrame(d, headers[i]);
    assert (headers + [start])[i] == headers[i];
  }

  lemma LastCovers(d: seq<Byte>, headers: seq<nat>, start: nat, p: nat)
    requires start + 6 < |d| && start <= p < start + ParseFrame(d, start)
    ensures start == p || Covered(d, headers + [start], p)
  {
    hide ParseFrame;
    assert (headers + [start])[|headers|] == start;
  }

  function TotalLength(d: seq<Byte>, headers: seq<nat>): nat {
    if headers == [] then 0
    else
      var last := headers[|headers| - 1];
      TotalLength(d, headers[..|headers| - 1]) + if last + 6 < |d| then ParseFrame(d, last) else 0
  }
}
