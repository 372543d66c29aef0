/**
 The seekable stream cache: a ring that keeps a rewind window behind the read
 position and a read-ahead window in front of it.

     preRp .. rp    bytes already read, kept so that a short seek back is free
     rp    .. wp    bytes fetched from the real stream, not yet read

 `Ring` is the state as a value, with one function per cache operation that
 takes the same branches as the C code.  The object that is updated in place is
 in module StreamCache.
 */
module CacheRing {
  import opened Common
  import opened Circular

  /** The fields of the cache.  They are plain integers: nothing but the
      operations keeps them meaningful. */
  datatype Ring = Ring(
    data: seq<Byte>,
    fixPreSize: nat,   // history a write must leave alone
    preRp: int,
    rp: int,
    wp: int,
    level: int,        // bytes ahead of rp
    preSize: int       // bytes behind rp
  )

  /** The window invariant. */
  predicate Window(c: Ring) {
    var n := |c.data|;
    && c.fixPreSize < n
    && 0 <= c.preRp <= n && 0 <= c.rp <= n && 0 <= c.wp <= n
    && 0 <= c.preSize && 0 <= c.level && c.preSize + c.level <= n
    && Gap(n, c.preRp, c.rp, c.preSize)
    && Gap(n, c.rp, c.wp, c.level)
    && (c.wp == 0 ==> c.preRp == 0 && c.rp == 0 && c.preSize == 0 && c.level == 0)
  }

  function History(c: Ring): seq<Byte>
    requires Window(c)
  {
    Span(c.data, c.preRp, c.preSize)
  }

  function Pending(c: Ring): seq<Byte>
    requires Window(c)
  {
    Span(c.data, c.rp, c.level)
  }

  /** Everything the cache holds, oldest byte first. */
  function Held(c: Ring): seq<Byte>
    requires Window(c)
  {
    History(c) + Pending(c)
  }

  function Space(c: Ring): int {
    |c.data| - c.level - c.fixPreSize
  }

  function Empty(fixPreSize: nat, data: seq<Byte>): Ring {
    Ring(data, fixPreSize, 0, 0, 0, 0, 0)
  }

  function Reset(c: Ring): Ring {
    c.(rp := 0, wp := 0, preRp := 0, preSize := 0, level := 0)
  }

  // ---------------------------------------------------------------- reading

  /** The copies of a read stay inside the storage. */
  predicate ReadInside(c: Ring, size: nat) {
    var n := |c.data|;
    var len := Min(c.level, size);
    && 0 <= len <= n && 0 <= c.rp <= n
    && (c.wp > c.rp ==> c.rp + len <= n)
  }

  function Read(c: Ring, size: nat): (r: (Ring, seq<Byte>))
    requires ReadInside(c, size)
  {
    var n := |c.data|;
    var len := Min(c.level, size);
    if len == 0 then
      (c, [])
    else
      var rp := if c.wp > c.rp || len <= n - c.rp then c.rp + len else len - (n - c.rp);
      (c.(rp := rp, level := c.level - len, preSize := c.preSize + len), Taken(c.data, c.rp, len))
  }

  /** A read hands out the first bytes ahead and moves them into the history. */
  lemma ReadMovesWindow(c: Ring, size: nat)
    requires Window(c)
    ensures ReadInside(c, size)
    ensures var (d, out) := Read(c, size);
            && Window(d)
            && |out| == Min(c.level, size)
            && out == Pending(c)[..|out|]
            && Pending(d) == Pending(c)[|out|..]
            && History(d) == History(c) + out
  {
    hide Span, Taken;
    var (d, out) := Read(c, size);
    var len := Min(c.level, size);
    if len == 0 {
      assert History(c) + [] == History(c);
    } else {
      ReadKeepsWindow(c, size);
      TakenIsSpan(c.data, c.rp, len);
      SpanSplit(c.data, c.rp, d.rp, len, c.level - len);
      SpanSplit(c.data, c.preRp, c.rp, c.preSize, len);
    }
  }

  lemma ReadKeepsWindow(c: Ring, size: nat)
    requires Window(c)
    ensures ReadInside(c, size)
    ensures var d := Read(c, size).0;
            Window(d) && After(|c.data|, c.rp, d.rp, Min(c.level, size))
  {
  }

  // ---------------------------------------------------------------- writing

  /** The bytes a write accepts. */
  function WriteLen(c: Ring, size: nat): int {
    Min(Space(c), size)
  }

  /** The copies of a write stay inside the storage. */
  predicate WriteInside(c: Ring, size: nat) {
    var n := |c.data|;
    var len := WriteLen(c, size);
    && 0 <= len <= n && 0 <= c.wp <= n
    && (c.wp < c.rp ==> c.wp + len <= n)
  }

  /** Where `len` more bytes end. */
  function NextWp(c: Ring, len: int): int {
    if c.wp < c.rp || len <= |c.data| - c.wp then c.wp + len else len - (|c.data| - c.wp)
  }

  /** What `cache_write` does to the history to make room, branch by branch. */
  function Evicted(c: Ring, len: int): Ring {
    var wp := NextWp(c, len);
    if c.wp < c.rp then
      if wp >= c.preRp then c.(preRp := wp, preSize := c.rp - wp) else c
    else if len <= |c.data| - c.wp then
      if c.preRp > c.rp && wp > c.preRp then c.(preRp := wp, preSize := c.rp + |c.data| - c.preSize) else c
    else
      if c.preRp > c.rp || c.preRp < wp then c.(preRp := wp, preSize := c.rp - wp) else c
  }

  /** `cache_write`. */
  function Write(c: Ring, input: seq<Byte>): Ring
    requires WriteInside(c, |input|)
  {
    var len := WriteLen(c, |input|);
    if len == 0 then
      c
    else
      Evicted(c, len).(data := Laid(c.data, c.wp, input[..len]), wp := NextWp(c, len), level := c.level + len)
  }

  /** The write as the layout comment describes it: when the ring cannot hold
      the history as well, the oldest history goes and nothing else does. */
  function WriteMeant(c: Ring, input: seq<Byte>): Ring
    requires WriteInside(c, |input|)
  {
    var n := |c.data|;
    var len := WriteLen(c, |input|);
    if len == 0 then
      c
    else
      var wp := NextWp(c, len);
      var d := c.(data := Laid(c.data, c.wp, input[..len]), level := c.level + len, wp := wp);
      if c.preSize + c.level + len > n then d.(preRp := wp, preSize := n - c.level - len) else d
  }

  /** The two situations in which the C write leaves the window wrong: the
      history fills the whole ring (so that preRp == rp == wp and no eviction
      test can fire), or the straight branch evicts and miscounts. */
  predicate WriteHazard(c: Ring, len: nat) {
    var n := |c.data|;
    || (c.preSize == n && c.preRp == c.rp)
    || (c.rp <= c.wp && len <= n - c.wp && c.rp < c.preRp < c.wp + len
        && c.preRp + c.wp + len != c.rp + n)
  }

  /** The intended write appends to the read-ahead, drops history only from its
      old end, as little as possible and never below the reserve. */
  lemma WriteMeantMovesWindow(c: Ring, input: seq<Byte>)
    requires Window(c) && 0 <= Space(c)
    ensures var d := WriteMeant(c, input);
            var len := WriteLen(c, |input|);
            && Window(d)
            && Pending(d) == Pending(c) + input[..len]
            && d.preSize == Min(c.preSize, |c.data| - c.level - len)
            && History(d) == History(c)[c.preSize - d.preSize..]
            && d.preSize >= Min(c.preSize, c.fixPreSize)
  {
    hide Span, Laid;
    var len := WriteLen(c, |input|);
    if len == 0 {
      assert Pending(c) + [] == Pending(c);
    } else {
      WriteMeantKeepsWindow(c, input);
      PendingGrows(c, input[..len]);
      HistoryShrinks(c, WriteMeant(c, input).preRp, WriteMeant(c, input).preSize, input[..len]);
    }
  }

  lemma PendingGrows(c: Ring, part: seq<Byte>)
    requires Window(c) && c.level + |part| <= |c.data|
    ensures Span(Laid(c.data, c.wp, part), c.rp, c.level + |part|) == Pending(c) + part
  {
    LaidReadsBack(c.data, c.wp, part);
    LaidKeepsOthers(c.data, c.wp, part, c.rp, c.level);
    SpanSplit(Laid(c.data, c.wp, part), c.rp, c.wp, c.level, |part|);
  }

  lemma HistoryShrinks(c: Ring, preRp: nat, preSize: nat, part: seq<Byte>)
    requires Window(c) && Window(c.(preRp := preRp, preSize := preSize))
    requires preSize <= c.preSize && After(|c.data|, c.preRp, preRp, c.preSize - preSize)
    requires preSize + c.level + |part| <= |c.data|
    ensures Span(Laid(c.data, c.wp, part), preRp, preSize) == History(c)[c.preSize - preSize..]
  {
    HistoryUntouched(c.(preRp := preRp, preSize := preSize), part);
    SpanSplit(c.data, c.preRp, preRp, c.preSize - preSize, preSize);
  }

  lemma WriteMeantKeepsWindow(c: Ring, input: seq<Byte>)
    requires Window(c) && 0 < WriteLen(c, |input|)
    ensures var d := WriteMeant(c, input);
            && Window(d)
            && Window(c.(preRp := d.preRp, preSize := d.preSize))
            && 0 <= d.preSize <= c.preSize
            && After(|c.data|, c.preRp, d.preRp, c.preSize - d.preSize)
  {
  }

  lemma HistoryUntouched(c: Ring, part: seq<Byte>)
    requires Window(c) && c.preSize + c.level + |part| <= |c.data|
    ensures Span(Laid(c.data, c.wp, part), c.preRp, c.preSize) == History(c)
  {
    var n := |c.data|;
    var laid := Laid(c.data, c.wp, part);
    LaidKeepsOthers(c.data, c.wp, part, c.preRp, c.preSize + c.level);
    SpanSplit(c.data, c.preRp, c.rp, c.preSize, c.level);
    SpanSplit(laid, c.preRp, c.rp, c.preSize, c.level);
  }

  /** Away from the two hazards the C write is the intended write, and in them
      it is not: there it breaks the window. */
  lemma WriteIsMeantIff(c: Ring, input: seq<Byte>)
    requires Window(c) && 0 <= Space(c)
    ensures var len := WriteLen(c, |input|);
            && (Window(Write(c, input)) <==> len == 0 || !WriteHazard(c, len))
            && (Write(c, input) == WriteMeant(c, input) <==> len == 0 || !WriteHazard(c, len))
  {
    WriteMeantMovesWindow(c, input);
    var len := WriteLen(c, |input|);
    if len != 0 && !WriteHazard(c, len) {
      assert Write(c, input) == WriteMeant(c, input);
    } else if len != 0 {
      assert !Window(Write(c, input));
    }
  }

  /** A write of bytes that fit, summed up: it is safe away from the hazards, and
      then the ring holds what it held and the input, less the oldest history. */
  lemma WriteMovesHeld(c: Ring, input: seq<Byte>)
    requires Window(c) && |input| <= Space(c)
    ensures WriteInside(c, |input|) && Window(WriteMeant(c, input))
    ensures var safe := input == [] || !WriteHazard(c, |input|);
            && (Window(Write(c, input)) <==> safe)
            && (safe ==> Write(c, input) == WriteMeant(c, input))
    ensures var d := WriteMeant(c, input);
            && d.level == c.level + |input|
            && d.preSize <= c.preSize
            && Held(d) == (Held(c) + input)[c.preSize - d.preSize..]
  {
    hide Write, WriteMeant, WriteHazard, Span;
    WriteMeantMovesWindow(c, input);
    WriteIsMeantIff(c, input);
    JoinedTail(History(c), Pending(c), input, c.preSize - WriteMeant(c, input).preSize);
  }

  lemma JoinedTail(a: seq<Byte>, b: seq<Byte>, input: seq<Byte>, k: nat)
    requires k <= |a|
    ensures a[k..] + (b + input[..|input|]) == (a + b + input)[k..]
  {
  }

  // ---------------------------------------------------------------- seeking

  /** `cache_seek`: move the read position by `step` inside the window.  The flag
      says whether the cache could serve the seek (the C function returns 0). */
  function Seek(c: Ring, step: int, forward: bool): (r: (bool, Ring)) {
    if step <= 0 then (true, c)
    else if forward then SeekForward(c, step)
    else SeekBack(c, step)
  }

  function SeekBack(c: Ring, step: int): (r: (bool, Ring)) {
    var d := c.(preSize := c.preSize - step, level := c.level + step);
    if c.preSize < step then (false, c)
    else if c.preRp < c.rp then (true, d.(rp := c.rp - step))
    else if c.preRp > c.rp then
      if c.rp > step then (true, d.(rp := c.rp - step))
      else (true, d.(rp := |c.data| - (step - c.rp)))
    else (false, c)
  }

  function SeekForward(c: Ring, step: int): (r: (bool, Ring)) {
    var d := c.(preSize := c.preSize + step, level := c.level - step);
    if c.level < step then (false, c)
    else if c.rp < c.wp then (true, d.(rp := c.rp + step))
    else if c.rp > c.wp then
      if |c.data| - c.rp > step then (true, d.(rp := c.rp + step))
      else (true, d.(rp := step - (|c.data| - c.rp)))
    else (false, c)
  }

  lemma SeekBackKeepsWindow(c: Ring, step: int)
    requires Window(c) && 0 < step
    ensures Window(SeekBack(c, step).1)
  {
  }

  lemma SeekForwardKeepsWindow(c: Ring, step: int)
    requires Window(c) && 0 < step
    ensures Window(SeekForward(c, step).1)
  {
  }

  /** The held bytes do not depend on where the window is split. */
  lemma HeldIsOneSpan(c: Ring)
    requires Window(c)
    ensures Held(c) == Span(c.data, c.preRp, c.preSize + c.level)
  {
    SpanSplit(c.data, c.preRp, c.rp, c.preSize, c.level);
  }

  /** A seek changes where the held bytes are split and nothing else; it is
      served exactly when the window reaches far enough and the two ends of the
      window are different storage positions. */
  lemma SeekMovesWindow(c: Ring, step: int, forward: bool)
    requires Window(c)
    ensures var (ok, d) := Seek(c, step, forward);
            && Window(d)
            && (ok <==> step <= 0 || (if forward then step <= c.level && c.rp != c.wp
                                      else step <= c.preSize && c.preRp != c.rp))
            && (if !ok || step <= 0 then d == c
                else && d.preSize == (if forward then c.preSize + step else c.preSize - step)
                     && Held(d) == Held(c))
  {
    hide Window, Span;
    if 0 < step {
      SeekBackKeepsWindow(c, step);
      SeekForwardKeepsWindow(c, step);
    }
    HeldIsOneSpan(c);
    HeldIsOneSpan(Seek(c, step, forward).1);
  }

  /** Positions in the window, as the layout comment draws them: each is the
      window's start plus the bytes counted so far, modulo the ring size. */
  lemma WindowIsModular(c: Ring)
    requires Window(c)
    ensures (c.preRp + c.preSize - c.rp) % |c.data| == 0
    ensures (c.preRp + c.preSize + c.level - c.wp) % |c.data| == 0
  {
    var n, a, b := |c.data|, c.preRp + c.preSize - c.rp, c.rp + c.level - c.wp;
    assert (a == 0 || a == n) && (b == 0 || b == n);
    MultiplesOf(n, a);
    MultiplesOf(n, a + b);
  }

  lemma MultiplesOf(n: nat, x: int)
    requires n > 0 && (x == 0 || x == n || x == n + n)
    ensures x % n == 0
  {
  }

  // ------------------------------------------- runs in which the write goes wrong

  /** A ring of ten bytes that keeps two, fed with a stream whose byte at offset i
      is i.  Eight bytes written and read leave eight bytes of history. */
  const RING0 := Empty(2, [0, 0, 0, 0, 0, 0, 0, 0, 0, 0])
  const RING8 := Ring([0, 1, 2, 3, 4, 5, 6, 7, 0, 0], 2, 0, 8, 8, 0, 8)
  const RING13 := Ring([10, 11, 12, 3, 4, 5, 6, 7, 8, 9], 2, 3, 8, 3, 5, 5)
  const RING18 := Ring([10, 11, 12, 13, 14, 15, 16, 17, 8, 9], 2, 8, 10, 8, 8, 2)
  const RING20 := Ring([10, 11, 12, 13, 14, 15, 16, 17, 18, 19], 2, 10, 3, 10, 7, 8)

  lemma FirstWrite()
    ensures Write(RING0, [0, 1, 2, 3, 4, 5, 6, 7]) == RING8.(rp := 0, level := 8, preSize := 0)
  {
    var laid := Laid(RING0.data, 0, [0, 1, 2, 3, 4, 5, 6, 7]);
    assert laid == RING8.data;
    assert WriteLen(RING0, 8) == 8 && Evicted(RING0, 8) == RING0;
  }

  lemma SecondWrite()
    ensures Write(RING8, [8, 9, 10, 11, 12]) == RING13
  {
    var laid := Laid(RING8.data, 8, [8, 9, 10, 11, 12]);
    assert laid == RING13.data;
  }

  /** Read 5 then leaves ten bytes of history at one storage position, and write 4
      evicts none of it.  One more read and a short backward seek put the read
      position in front of the storage. */
  lemma FullHistoryRun()
    ensures Read(Write(RING0, [0, 1, 2, 3, 4, 5, 6, 7]), 8).0 == RING8 && Write(RING8, [8, 9, 10, 11, 12]) == RING13
    ensures var c := Read(RING13, 5).0;
            var d := Write(c, [13, 14, 15, 16]);
            && Window(c) && c.preSize == 10 && c.preRp == c.rp == c.wp == 3
            && d.preSize + d.level == 14 && !Window(d)
            && Seek(Read(d, 1).0, 5, false) == (true, Read(d, 1).0.(rp := -1, preSize := 6, level := 8))
  {
    FirstWrite();
    SecondWrite();
  }

  lemma ThirdWrite()
    ensures Read(RING13, 2).0 == RING13.(rp := 10, level := 3, preSize := 7)
    ensures Write(RING13.(rp := 10, level := 3, preSize := 7), [13, 14, 15, 16, 17]) == RING18
  {
  }

  lemma FourthWrite()
    ensures Read(RING18, 3).0 == RING18.(rp := 3, level := 5, preSize := 5)
    ensures Write(RING18.(rp := 3, level := 5, preSize := 5), [18, 19]) == RING20
  {
    var laid := Laid(RING18.data, 8, [18, 19]);
    assert laid == RING20.data;
  }

  /** Read 2, write 5 and read 3 instead, and the next write evicts in the straight
      branch: the history is counted as eight bytes although three are left, and a
      backward seek of five that the cache accepts reads byte 18 at offset 8. */
  lemma MiscountedEvictionRun()
    ensures Read(Write(RING0, [0, 1, 2, 3, 4, 5, 6, 7]), 8).0 == RING8 && Write(RING8, [8, 9, 10, 11, 12]) == RING13
    ensures Write(Read(RING13, 2).0, [13, 14, 15, 16, 17]) == RING18 && Write(Read(RING18, 3).0, [18, 19]) == RING20
    ensures Window(Read(RING18, 3).0) && !Window(RING20)
    ensures var (ok, c) := Seek(RING20, 5, false);
            ok && ReadInside(c, 1) && Read(c, 1).1 == [18]
  {
    FirstWrite();
    SecondWrite();
    ThirdWrite();
    FourthWrite();
  }
}
