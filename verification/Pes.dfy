/**
 Reassembly of PES packets from transport packet payloads (section 2.4.3.6 of
 ISO/IEC 13818-1): the byte-driven state machine of the TS demuxer, as values.
 */
module Pes {
  import opened Common
  import opened Circular
  import opened Timestamps

  const PES_START_SIZE: nat := 6
  const PES_HEADER_SIZE: nat := 9
  const MAX_PES_HEADER_SIZE: nat := 9 + 255
  const MAX_PES_PAYLOAD: nat := 200 * 1024
  const NO_PTS: bv64 := 0xFFFF_FFFF_FFFF_FFFF   // -1

  datatype Phase = Invalid | Header | PesHeader | PesHeaderFill | Payload | Skip

  /** The reassembly state of one elementary stream. */
  datatype State = State(
    phase: Phase,
    dataIndex: nat,        // header bytes so far, or payload bytes so far
    header: seq<Byte>,
    headerSize: nat,
    totalSize: nat,
    hasBuffer: bool,       // there is a payload buffer
    body: seq<Byte>,       // its first dataIndex bytes
    pts: bv64,
    dts: bv64,
    extendedId: int,
    streamType: int
  )

  datatype Frame = Frame(data: seq<Byte>, pts: bv64, dts: bv64)

  predicate Wf(s: State) {
    && |s.header| == MAX_PES_HEADER_SIZE
    && (s.phase.Header? ==> s.dataIndex < PES_START_SIZE && s.body == [])
    && (s.phase.PesHeader? ==> PES_START_SIZE <= s.dataIndex < PES_HEADER_SIZE && s.body == [])
    && (s.phase.PesHeaderFill? ==> PES_HEADER_SIZE <= s.dataIndex <= s.headerSize <= MAX_PES_HEADER_SIZE && s.body == [])
    && (s.phase.Payload? ==> s.dataIndex == |s.body| <= s.totalSize)
    && (s.phase in {PesHeader, PesHeaderFill, Payload} ==> s.hasBuffer && 0 < s.totalSize)
  }

  /** Packets of these stream ids have no header after the length field. */
  predicate Headerless(id: Byte) {
    id in {0xbc, 0xbf, 0xf0, 0xf1, 0xff, 0xf2, 0xf8}
  }

  predicate StartCode(h: seq<Byte>)
    requires |h| >= PES_START_SIZE
  {
    h[0] == 0 && h[1] == 0 && h[2] == 1
  }

  /** The payload room the length field asks for; zero means unbounded. */
  function RoomOf(h: seq<Byte>): (n: nat)
    requires |h| >= PES_START_SIZE
    ensures n > 0
  {
    var n := h[4] as nat * 256 + h[5] as nat;
    if n == 0 then MAX_PES_PAYLOAD else n
  }

  /** Presentation and decoding time as the header announces them. */
  function TimesOf(h: seq<Byte>): (bv64, bv64)
    requires |h| >= 19
  {
    if h[7] & 0xc0 == 0x80 then (ParsePts(h[9..14]), ParsePts(h[9..14]))
    else if h[7] & 0xc0 == 0xc0 then (ParsePts(h[9..14]), ParsePts(h[14..19]))
    else (NO_PTS, NO_PTS)
  }

  function ExtendedIdOf(h: seq<Byte>, headerSize: nat): int
    requires |h| == MAX_PES_HEADER_SIZE && headerSize <= |h|
  {
    if h[7] & 1 == 0 then -1
    else
      var r := if h[7] & 0xc0 == 0x80 then 14 else if h[7] & 0xc0 == 0xc0 then 19 else 9;
      var ext := h[r];
      var skip := (ext >> 4) & 0xb;
      var r2 := r + 1 + (skip + (skip & 0x9)) as nat;
      if ext & 0x41 == 1 && r2 + 2 <= headerSize && h[r2] & 0x7f > 0 && h[r2 + 1] & 0x80 == 0
      then h[r2 + 1] as int else -1
  }

  function Patch(h: seq<Byte>, at: nat, part: seq<Byte>): (r: seq<Byte>)
    requires at + |part| <= |h|
    ensures |r| == |h|
  {
    h[..at] + part + h[at + |part|..]
  }

  /** A start unit: whatever was under way is over. */
  function Begin(s: State): (t: State)
    ensures Wf(s) ==> Wf(t) && t.phase.Header?
  {
    s.(pts := NO_PTS, dts := NO_PTS, hasBuffer := false, body := [], phase := Header, dataIndex := 0)
  }

  /** What the first six bytes decide. */
  function Classified(s: State): (t: State)
    requires |s.header| == MAX_PES_HEADER_SIZE
  {
    if StartCode(s.header) && s.header[3] != 0xbe then
      var t := s.(totalSize := RoomOf(s.header), hasBuffer := true);
      if Headerless(s.header[3]) then t.(phase := Payload, dataIndex := 0, body := [])
      else t.(phase := PesHeader)
    else
      s.(phase := Skip)
  }

  /** The whole header is there. */
  function Completed(s: State): State
    requires |s.header| == MAX_PES_HEADER_SIZE && s.headerSize <= MAX_PES_HEADER_SIZE
  {
    var (pts, dts) := TimesOf(s.header);
    s.(pts := pts, dts := dts, extendedId := ExtendedIdOf(s.header, s.headerSize),
       phase := Payload, dataIndex := 0, body := [])
  }

  function Rank(p: Phase): nat {
    if p.PesHeaderFill? then 1 else 0
  }

  /** Collect header bytes until there are `limit` of them. */
  function Collect(s: State, buf: seq<Byte>, limit: nat): (r: (State, seq<Byte>))
    requires |s.header| == MAX_PES_HEADER_SIZE && s.dataIndex <= limit <= MAX_PES_HEADER_SIZE
    ensures |r.0.header| == MAX_PES_HEADER_SIZE
    ensures r.0 == s.(header := r.0.header, dataIndex := r.0.dataIndex)
    ensures r.0.dataIndex == s.dataIndex + |buf| - |r.1| <= limit && |r.1| <= |buf|
    ensures r.0.dataIndex == limit || r.1 == []
  {
    var len := if limit - s.dataIndex > |buf| then |buf| else limit - s.dataIndex;
    (s.(header := Patch(s.header, s.dataIndex, buf[..len]), dataIndex := s.dataIndex + len), buf[len..])
  }

  function TurnStart(s: State, buf: seq<Byte>): (r: (State, seq<Byte>))
    requires Wf(s) && s.phase.Header? && buf != []
    ensures Wf(r.0) && !r.0.phase.Invalid? && r.0.streamType == s.streamType && |r.1| < |buf|
  {
    var (t, rest) := Collect(s, buf, PES_START_SIZE);
    (if t.dataIndex == PES_START_SIZE then Classified(t) else t, rest)
  }

  function TurnFlags(s: State, buf: seq<Byte>): (r: (State, seq<Byte>))
    requires Wf(s) && s.phase.PesHeader? && buf != []
    ensures Wf(r.0) && !r.0.phase.Invalid? && r.0.streamType == s.streamType && |r.1| < |buf|
  {
    var (t, rest) := Collect(s, buf, PES_HEADER_SIZE);
    (if t.dataIndex == PES_HEADER_SIZE then t.(headerSize := t.header[8] as nat + 9, phase := PesHeaderFill) else t,
     rest)
  }

  function TurnFill(s: State, buf: seq<Byte>): (r: (State, seq<Byte>))
    requires Wf(s) && s.phase.PesHeaderFill? && buf != []
    ensures Wf(r.0) && !r.0.phase.Invalid? && r.0.streamType == s.streamType
    ensures |r.1| < |buf| || (|r.1| == |buf| && r.0.phase.Payload?)
  {
    var (t, rest) := Collect(s, buf, s.headerSize);
    if t.dataIndex < s.headerSize then (t, rest)
    else if s.streamType == 0x15 && |rest| >= 5 then
      (Completed(t).(headerSize := t.headerSize + 5), rest[5..])
    else
      (Completed(t), rest)
  }

  function TurnPayload(s: State, buf: seq<Byte>): (t: State)
    requires Wf(s) && s.phase.Payload?
    ensures Wf(t) && t.phase.Payload? && t.streamType == s.streamType
  {
    if 0 < |s.body| && |s.body| + |buf| > s.totalSize then
      s.(body := s.body + buf, dataIndex := |s.body| + |buf|, totalSize := |s.body| + |buf|)
    else
      var part := if s.body == [] && |buf| > s.totalSize then buf[..s.totalSize] else buf;
      s.(body := s.body + part, dataIndex := |s.body| + |part|)
  }

  /** One turn of the loop: the state after it and the bytes left. */
  function Turn(s: State, buf: seq<Byte>): (r: (State, seq<Byte>))
    requires Wf(s) && !s.phase.Invalid? && buf != []
    ensures Wf(r.0) && !r.0.phase.Invalid? && r.0.streamType == s.streamType
    ensures |r.1| < |buf| || (|r.1| == |buf| && Rank(r.0.phase) < Rank(s.phase))
  {
    match s.phase
    case Header => TurnStart(s, buf)
    case PesHeader => TurnFlags(s, buf)
    case PesHeaderFill => TurnFill(s, buf)
    case Payload => (TurnPayload(s, buf), [])
    case Skip => (s, [])
  }

  /** The loop over one payload. */
  function Absorb(s: State, buf: seq<Byte>): (t: State)
    requires Wf(s) && !s.phase.Invalid?
    ensures Wf(t) && !t.phase.Invalid? && t.streamType == s.streamType
    decreases |buf|, Rank(s.phase)
  {
    if buf == [] then s
    else
      var (t, rest) := Turn(s, buf);
      Absorb(t, rest)
  }

  /** `handle_ts_pkt`: the frame a start unit completes, and the state after the
      payload. */
  function Handle(s: State, unitStart: bool, payload: seq<Byte>): (r: (Option<Frame>, State))
    requires Wf(s)
    ensures Wf(r.1)
  {
    if !unitStart then
      (None, if s.phase.Invalid? then s else Absorb(s, payload))
    else
      (if s.phase.Payload? && 0 < |s.body| then Some(Frame(s.body, s.pts, s.dts)) else None,
       Absorb(Begin(s), payload))
  }

  // ------------------------------------------------- a packet cut into payloads

  /** Offset of the payload in a PES packet. */
  function PayloadStart(pes: seq<Byte>): (n: nat)
    requires |pes| >= PES_START_SIZE
  {
    if Headerless(pes[3]) || |pes| < PES_HEADER_SIZE then PES_START_SIZE else pes[8] as nat + 9
  }

  /** A packet whose header is complete, announces only times that it carries,
      and is followed by payload. */
  predicate WellFormed(pes: seq<Byte>) {
    && |pes| >= PES_START_SIZE
    && StartCode(pes) && pes[3] != 0xbe
    && (!Headerless(pes[3]) ==> |pes| >= PES_HEADER_SIZE)
    && PayloadStart(pes) < |pes|
    && (!Headerless(pes[3]) && pes[7] & 0xc0 == 0x80 ==> pes[8] as nat >= 5)
    && (!Headerless(pes[3]) && pes[7] & 0xc0 == 0xc0 ==> pes[8] as nat >= 10)
  }

  /** The times the packet carries. */
  function PesTimes(pes: seq<Byte>): (bv64, bv64)
    requires WellFormed(pes)
  {
    if !Headerless(pes[3]) && pes[7] & 0xc0 == 0x80 then (ParsePts(pes[9..14]), ParsePts(pes[9..14]))
    else if !Headerless(pes[3]) && pes[7] & 0xc0 == 0xc0 then (ParsePts(pes[9..14]), ParsePts(pes[14..19]))
    else (NO_PTS, NO_PTS)
  }

  /** The first k bytes of the packet have been taken in and the header is not
      complete. */
  predicate InHeader(s: State, pes: seq<Byte>, k: nat)
    requires WellFormed(pes)
  {
    && Wf(s) && s.phase in {Header, PesHeader, PesHeaderFill}
    && s.dataIndex == k <= |pes| && s.header[..k] == pes[..k]
    && (k < PayloadStart(pes) || k == PES_HEADER_SIZE)
    && s.pts == NO_PTS && s.dts == NO_PTS
    && (!s.phase.Header? ==> !Headerless(pes[3]) && s.totalSize == RoomOf(pes))
    && (s.phase.PesHeaderFill? ==> s.headerSize == PayloadStart(pes))
  }

  /** The first k bytes have been taken in and all payload among them kept. */
  predicate InPayload(s: State, pes: seq<Byte>, k: nat)
    requires WellFormed(pes)
  {
    && Wf(s) && s.phase.Payload?
    && PayloadStart(pes) <= k <= |pes| && s.body == pes[PayloadStart(pes)..k]
    && (s.pts, s.dts) == PesTimes(pes)
    && (s.body == [] ==> s.totalSize == RoomOf(pes))
  }

  /** The demuxer cuts a metadata header of five bytes off the payload of such
      packets, when it finds that many behind the header in one piece. */
  predicate Cuttable(streamType: int, pes: seq<Byte>)
    requires WellFormed(pes)
  {
    streamType == 0x15 && !Headerless(pes[3])
  }

  /** Collecting copies the packet's own bytes into place. */
  lemma CollectCopies(s: State, pes: seq<Byte>, j: nat, limit: nat)
    requires |s.header| == MAX_PES_HEADER_SIZE && s.dataIndex <= limit <= MAX_PES_HEADER_SIZE
    requires s.dataIndex <= j <= |pes| && s.header[..s.dataIndex] == pes[..s.dataIndex]
    ensures var (t, rest) := Collect(s, pes[s.dataIndex..j], limit);
            && t.header[..t.dataIndex] == pes[..t.dataIndex]
            && t.dataIndex == (if j < limit then j else limit) && rest == pes[t.dataIndex..j]
  {
    var (t, rest) := Collect(s, pes[s.dataIndex..j], limit);
    forall i | 0 <= i < t.dataIndex
      ensures t.header[i] == pes[i]
    {
      if i < s.dataIndex {
        assert s.header[..s.dataIndex][i] == pes[..s.dataIndex][i];
      }
    }
  }

  lemma StartTurn(s: State, pes: seq<Byte>, j: nat)
    requires WellFormed(pes) && InHeader(s, pes, s.dataIndex) && s.phase.Header? && s.dataIndex < j <= |pes|
    ensures var (t, rest) := Turn(s, pes[s.dataIndex..j]);
            var next := if j < PES_START_SIZE then j else PES_START_SIZE;
            && rest == pes[next..j]
            && if next == PayloadStart(pes) then InPayload(t, pes, next) else InHeader(t, pes, next)
  {
    CollectCopies(s, pes, j, PES_START_SIZE);
    var t := Collect(s, pes[s.dataIndex..j], PES_START_SIZE).0;
    if j >= PES_START_SIZE {
      FirstSix(t.header, pes);
    }
  }

  lemma FirstSix(h: seq<Byte>, pes: seq<Byte>)
    requires |h| >= PES_START_SIZE && |pes| >= PES_START_SIZE && h[..PES_START_SIZE] == pes[..PES_START_SIZE]
    ensures StartCode(h) == StartCode(pes) && h[3] == pes[3] && RoomOf(h) == RoomOf(pes)
  {
    assert forall i :: 0 <= i < PES_START_SIZE ==> h[i] == h[..PES_START_SIZE][i] && pes[i] == pes[..PES_START_SIZE][i];
  }

  lemma FlagsTurn(s: State, pes: seq<Byte>, j: nat)
    requires WellFormed(pes) && InHeader(s, pes, s.dataIndex) && s.phase.PesHeader? && s.dataIndex < j <= |pes|
    ensures var (t, rest) := Turn(s, pes[s.dataIndex..j]);
            var next := if j < PES_HEADER_SIZE then j else PES_HEADER_SIZE;
            rest == pes[next..j] && InHeader(t, pes, next)
  {
    hide Patch, StartCode, Headerless, RoomOf, PesTimes;
    CollectCopies(s, pes, j, PES_HEADER_SIZE);
    var t := Collect(s, pes[s.dataIndex..j], PES_HEADER_SIZE).0;
    if j >= PES_HEADER_SIZE {
      assert t.header[8] == t.header[..PES_HEADER_SIZE][8] == pes[..PES_HEADER_SIZE][8];
    }
  }

  lemma FillTurn(s: State, pes: seq<Byte>, j: nat)
    requires WellFormed(pes) && InHeader(s, pes, s.dataIndex) && s.phase.PesHeaderFill? && s.dataIndex < j <= |pes|
    requires Cuttable(s.streamType, pes) ==> j < PayloadStart(pes) + 5
    ensures var (t, rest) := Turn(s, pes[s.dataIndex..j]);
            var next := if j < PayloadStart(pes) then j else PayloadStart(pes);
            && rest == pes[next..j]
            && if next == PayloadStart(pes) then InPayload(t, pes, next) else InHeader(t, pes, next)
  {
    CollectCopies(s, pes, j, s.headerSize);
    var t := Collect(s, pes[s.dataIndex..j], s.headerSize).0;
    if j >= s.headerSize {
      SameTimes(t.header, pes);
    }
  }

  lemma SameTimes(h: seq<Byte>, pes: seq<Byte>)
    requires WellFormed(pes) && !Headerless(pes[3]) && |h| == MAX_PES_HEADER_SIZE
    requires h[..PayloadStart(pes)] == pes[..PayloadStart(pes)]
    ensures TimesOf(h) == PesTimes(pes)
  {
    var n := PayloadStart(pes);
    assert h[7] == h[..n][7] == pes[..n][7];
    if n >= 14 {
      assert h[9..14] == h[..n][9..14] == pes[..n][9..14] == pes[9..14];
    }
    if n >= 19 {
      assert h[14..19] == h[..n][14..19] == pes[..n][14..19] == pes[14..19];
    }
  }

  predicate Tracks(s: State, pes: seq<Byte>, k: nat)
    requires WellFormed(pes)
  {
    InHeader(s, pes, k) || InPayload(s, pes, k)
  }

  /** Nothing of the piece up to offset j gets lost: the first payload bytes to
      arrive are not more than the room asked for, and too few for a cut. */
  predicate KeepsAll(s: State, pes: seq<Byte>, k: nat, j: nat)
    requires WellFormed(pes)
  {
    var start := PayloadStart(pes);
    k <= start < j ==>
      j - start <= RoomOf(pes) && !(InHeader(s, pes, k) && Cuttable(s.streamType, pes) && start + 5 <= j)
  }

  /** Some of the first k bytes are lost for good. */
  predicate Short(s: State, pes: seq<Byte>, k: nat)
    requires WellFormed(pes)
  {
    Wf(s) && s.phase.Payload? && PayloadStart(pes) < k <= |pes| && |s.body| < k - PayloadStart(pes)
  }

  lemma PayloadTurn(s: State, pes: seq<Byte>, k: nat, j: nat)
    requires WellFormed(pes) && InPayload(s, pes, k) && k < j <= |pes|
    requires k == PayloadStart(pes) ==> j <= k + RoomOf(pes)
    ensures var (t, rest) := Turn(s, pes[k..j]);
            rest == [] && InPayload(t, pes, j)
  {
    assert s.body + pes[k..j] == pes[PayloadStart(pes)..j];
  }

  /** What lies between two pieces: a header of nine bytes that has just come in
      is not yet taken for complete. */
  predicate Settled(s: State, pes: seq<Byte>, k: nat)
    requires WellFormed(pes)
  {
    Tracks(s, pes, k) && (InPayload(s, pes, k) ==> k > PayloadStart(pes) || k != PES_HEADER_SIZE)
  }

  /** The turn says of what it takes in and of the rest what the state said of
      the whole piece. */
  predicate TurnTracks(s: State, pes: seq<Byte>, k: nat, j: nat)
    requires WellFormed(pes) && Tracks(s, pes, k) && k < j <= |pes|
  {
    var (t, rest) := Turn(s, pes[k..j]);
    var next := j - |rest|;
    && k <= next && rest == pes[next..j] && Tracks(t, pes, next) && KeepsAll(t, pes, next, j)
    && (next == j ==> Settled(t, pes, j))
  }

  lemma AnyTurn(s: State, pes: seq<Byte>, k: nat, j: nat)
    requires WellFormed(pes) && Tracks(s, pes, k) && k < j <= |pes| && KeepsAll(s, pes, k, j)
    ensures TurnTracks(s, pes, k, j)
  {
    hide Turn, StartCode, Headerless, RoomOf, PesTimes;
    match s.phase {
      case Payload => PayloadTurn(s, pes, k, j);
      case Header => StartTurn(s, pes, j);
      case PesHeader => FlagsTurn(s, pes, j);
      case PesHeaderFill => FillTurnTracks(s, pes, j);
    }
  }

  lemma FillTurnTracks(s: State, pes: seq<Byte>, j: nat)
    requires WellFormed(pes) && InHeader(s, pes, s.dataIndex) && s.phase.PesHeaderFill? && s.dataIndex < j <= |pes|
    requires KeepsAll(s, pes, s.dataIndex, j)
    ensures TurnTracks(s, pes, s.dataIndex, j)
  {
    hide Turn, Wf, StartCode, Headerless, RoomOf, PesTimes;
    FillIsPastFlags(s);
    FillTurn(s, pes, j);
  }

  lemma FillIsPastFlags(s: State)
    requires Wf(s) && s.phase.PesHeaderFill?
    ensures PES_HEADER_SIZE <= s.dataIndex
  {
  }

  /** Wherever the packet is cut, the state after j bytes says the same, as long
      as the piece can be kept. */
  lemma {:induction false} AbsorbTracks(s: State, pes: seq<Byte>, k: nat, j: nat)
    requires WellFormed(pes) && Tracks(s, pes, k) && k <= j <= |pes| && KeepsAll(s, pes, k, j)
    requires k == j ==> Settled(s, pes, k)
    ensures Settled(Absorb(s, pes[k..j]), pes, j)
    decreases j - k, Rank(s.phase)
  {
    hide Turn, Wf, WellFormed, PayloadStart, KeepsAll;
    if k < j {
      AnyTurn(s, pes, k, j);
      var (t, rest) := Turn(s, pes[k..j]);
      AbsorbTracks(t, pes, j - |rest|, j);
    }
  }

  lemma PayloadOnlyGrows(s: State, rest: seq<Byte>)
    requires Wf(s) && s.phase.Payload?
    ensures var t := Absorb(s, rest);
            && t.phase.Payload? && |t.body| <= |s.body| + |rest|
            && (s.body == [] ==> |t.body| <= s.totalSize)
  {
    if rest != [] {
      var t := Turn(s, rest).0;
      assert Absorb(s, rest) == Absorb(t, []) == t;
    }
  }

  /** The header is through and `kept` is the payload kept so far. */
  predicate Holds(s: State, pes: seq<Byte>, kept: seq<Byte>)
    requires WellFormed(pes)
  {
    && Wf(s) && s.phase.Payload? && s.body == kept && (s.pts, s.dts) == PesTimes(pes)
    && (kept == [] ==> s.totalSize == RoomOf(pes))
  }

  /** The turn that completes the header and finds five bytes to cut off. */
  lemma CuttingTurn(s: State, pes: seq<Byte>, j: nat)
    requires WellFormed(pes) && InHeader(s, pes, s.dataIndex) && s.phase.PesHeaderFill?
    requires Cuttable(s.streamType, pes) && PayloadStart(pes) + 5 <= j <= |pes|
    ensures var (t, rest) := Turn(s, pes[s.dataIndex..j]);
            && Holds(t, pes, []) && rest == pes[PayloadStart(pes) + 5..j]
            && t.headerSize == PayloadStart(pes) + 5
  {
    hide TimesOf, ExtendedIdOf, PesTimes, StartCode, RoomOf, Patch;
    CollectCopies(s, pes, j, s.headerSize);
    SameTimes(Collect(s, pes[s.dataIndex..j], s.headerSize).0.header, pes);
  }

  /** A piece that cannot be kept costs payload. */
  lemma {:induction false} AbsorbLoses(s: State, pes: seq<Byte>, k: nat, j: nat)
    requires WellFormed(pes) && Tracks(s, pes, k) && k < j <= |pes| && !KeepsAll(s, pes, k, j)
    ensures Short(Absorb(s, pes[k..j]), pes, j)
    decreases j - k, Rank(s.phase)
  {
    hide Turn, StartCode, Headerless, RoomOf, PesTimes;
    var (t, rest) := Turn(s, pes[k..j]);
    assert Absorb(s, pes[k..j]) == Absorb(t, rest);
    match s.phase {
      case Payload =>
        PayloadOnlyGrows(s, pes[k..j]);
      case Header =>
        StartTurn(s, pes, j);
        AbsorbLoses(t, pes, PES_START_SIZE, j);
      case PesHeader =>
        FlagsTurn(s, pes, j);
        AbsorbLoses(t, pes, PES_HEADER_SIZE, j);
      case PesHeaderFill =>
        if Cuttable(s.streamType, pes) && PayloadStart(pes) + 5 <= j {
          CuttingTurn(s, pes, j);
          PayloadOnlyGrows(t, rest);
        } else {
          FillTurn(s, pes, j);
          AbsorbLoses(t, pes, PayloadStart(pes), j);
        }
    }
  }

  // ------------------------------------------------- fragmentation independence

  /** The payloads of one packet, the first of them in a start unit. */
  function FeedAll(s: State, chunks: seq<seq<Byte>>): (t: State)
    requires Wf(s) && !s.phase.Invalid?
    ensures Wf(t) && !t.phase.Invalid? && t.streamType == s.streamType
    decreases |chunks|
  {
    if chunks == [] then s else FeedAll(Absorb(s, chunks[0]), chunks[1..])
  }

  function Joined(chunks: seq<seq<Byte>>): seq<Byte> {
    if chunks == [] then [] else chunks[0] + Joined(chunks[1..])
  }

  /** The frame handed out when the unit after the packet starts. */
  function FrameAfter(s: State, chunks: seq<seq<Byte>>, next: seq<Byte>): Option<Frame>
    requires Wf(s)
  {
    Handle(FeedAll(Begin(s), chunks), true, next).0
  }

  /** The frame the packet stands for. */
  function FrameOf(pes: seq<Byte>): Option<Frame>
    requires WellFormed(pes)
  {
    Some(Frame(pes[PayloadStart(pes)..], PesTimes(pes).0, PesTimes(pes).1))
  }

  /** The same as `KeepsAll`, in terms of where the packet is cut: the piece with
      the first payload bytes brings no more than the room asked for, and none that
      are cut off as a metadata header. */
  predicate Whole(streamType: int, pes: seq<Byte>, k: nat, j: nat)
    requires WellFormed(pes)
  {
    var start := PayloadStart(pes);
    k <= start < j ==>
      && j - start <= RoomOf(pes)
      && !((k < start || start == PES_HEADER_SIZE) && Cuttable(streamType, pes) && start + 5 <= j)
  }

  predicate CutIsWhole(streamType: int, pes: seq<Byte>, k: nat, chunks: seq<seq<Byte>>)
    requires WellFormed(pes)
    decreases |chunks|
  {
    chunks == [] ||
      (Whole(streamType, pes, k, k + |chunks[0]|) && CutIsWhole(streamType, pes, k + |chunks[0]|, chunks[1..]))
  }

  lemma WholeIsKept(s: State, pes: seq<Byte>, k: nat, j: nat)
    requires WellFormed(pes) && Settled(s, pes, k)
    ensures KeepsAll(s, pes, k, j) <==> Whole(s.streamType, pes, k, j)
  {
    hide StartCode, Headerless, RoomOf, PesTimes;
  }

  lemma FirstPiece(pes: seq<Byte>, k: nat, chunks: seq<seq<Byte>>)
    requires k <= |pes| && chunks != [] && Joined(chunks) == pes[k..]
    ensures var j := k + |chunks[0]|;
            j <= |pes| && chunks[0] == pes[k..j] && Joined(chunks[1..]) == pes[j..]
  {
    var rest := Joined(chunks[1..]);
    assert chunks[0] == (chunks[0] + rest)[..|chunks[0]|] && rest == (chunks[0] + rest)[|chunks[0]|..];
  }

  lemma {:induction false} ShortStaysShort(s: State, pes: seq<Byte>, k: nat, chunks: seq<seq<Byte>>)
    requires WellFormed(pes) && Short(s, pes, k) && Joined(chunks) == pes[k..]
    ensures Short(FeedAll(s, chunks), pes, |pes|)
    decreases |chunks|
  {
    hide WellFormed, PayloadStart, Wf, Absorb;
    if chunks != [] {
      FirstPiece(pes, k, chunks);
      PayloadOnlyGrows(s, chunks[0]);
      ShortStaysShort(Absorb(s, chunks[0]), pes, k + |chunks[0]|, chunks[1..]);
    } else {
      assert |pes[k..]| == 0;
    }
  }

  lemma {:induction false} FeedTracksIff(s: State, pes: seq<Byte>, k: nat, chunks: seq<seq<Byte>>)
    requires WellFormed(pes) && Settled(s, pes, k) && k <= |pes| && Joined(chunks) == pes[k..]
    ensures if CutIsWhole(s.streamType, pes, k, chunks) then Tracks(FeedAll(s, chunks), pes, |pes|)
            else Short(FeedAll(s, chunks), pes, |pes|)
    decreases |chunks|
  {
    hide WellFormed, PayloadStart, Wf, Absorb, KeepsAll, Short, RoomOf, Cuttable;
    if chunks == [] {
      assert |pes[k..]| == 0;
    } else {
      FirstPiece(pes, k, chunks);
      var j := k + |chunks[0]|;
      var t := Absorb(s, chunks[0]);
      WholeIsKept(s, pes, k, j);
      if Whole(s.streamType, pes, k, j) {
        AbsorbTracks(s, pes, k, j);
        FeedTracksIff(t, pes, j, chunks[1..]);
      } else {
        AbsorbLoses(s, pes, k, j);
        ShortStaysShort(t, pes, j, chunks[1..]);
      }
    }
  }

  lemma BeginTracks(s: State, pes: seq<Byte>)
    requires Wf(s) && WellFormed(pes)
    ensures Wf(Begin(s)) && Settled(Begin(s), pes, 0) && pes[0..] == pes
  {
    hide PesTimes, StartCode, Headerless, RoomOf;
    assert InHeader(Begin(s), pes, 0);
  }

  /** The frame a fully arrived packet hands out. */
  lemma ArrivedIsThePacket(t: State, pes: seq<Byte>, next: seq<Byte>)
    requires WellFormed(pes) && Tracks(t, pes, |pes|)
    ensures Handle(t, true, next).0 == FrameOf(pes)
  {
    hide PesTimes, RoomOf, StartCode, Headerless, Absorb;
    assert InPayload(t, pes, |pes|);
    assert t.body == pes[PayloadStart(pes)..];
  }

  /** For every packet and every way of cutting it into pieces: the next start unit
      hands out exactly the packet's payload and times if and only if no piece asks
      too much, and a frame with less payload, or none, otherwise. */
  lemma CutYieldsThePacketIff(s: State, pes: seq<Byte>, chunks: seq<seq<Byte>>, next: seq<Byte>)
    requires Wf(s) && WellFormed(pes) && Joined(chunks) == pes
    ensures var frame := FrameAfter(s, chunks, next);
            if CutIsWhole(s.streamType, pes, 0, chunks) then frame == FrameOf(pes)
            else frame.None? || |frame.value.data| < |pes| - PayloadStart(pes)
  {
    hide PesTimes, RoomOf, CutIsWhole, StartCode, PayloadStart, Headerless, Absorb, Wf;
    BeginTracks(s, pes);
    FeedTracksIff(Begin(s), pes, 0, chunks);
    var t := FeedAll(Begin(s), chunks);
    if CutIsWhole(s.streamType, pes, 0, chunks) {
      ArrivedIsThePacket(t, pes, next);
    }
  }

  // ------------------------------------------------------ what a cut leaves over

  /** What is kept of the first payload bytes to arrive, and of later ones. */
  function Clip(pes: seq<Byte>, kept: seq<Byte>, part: seq<Byte>): seq<Byte>
    requires WellFormed(pes)
  {
    if kept == [] && |part| > RoomOf(pes) then part[..RoomOf(pes)] else part
  }

  /** Where the payload of the piece [k..j) starts, behind a metadata header if one
      is cut off. */
  function OpensAt(streamType: int, pes: seq<Byte>, k: nat, j: nat): (n: nat)
    requires WellFormed(pes) && k <= j <= |pes|
    ensures k <= n && (PayloadStart(pes) < j ==> n <= j)
  {
    var start := PayloadStart(pes);
    if start < k then k
    else if Cuttable(streamType, pes) && start + 5 <= j && (k < start || start == PES_HEADER_SIZE) then start + 5
    else start
  }

  /** The payload that survives when the rest of the packet, from k on, arrives in
      these pieces and `kept` is kept already. */
  function Survives(streamType: int, pes: seq<Byte>, k: nat, kept: seq<Byte>, chunks: seq<seq<Byte>>): seq<Byte>
    requires WellFormed(pes) && k <= |pes| && Joined(chunks) == pes[k..]
    decreases |chunks|
  {
    if chunks == [] then kept
    else
      FirstPiece(pes, k, chunks);
      var j := k + |chunks[0]|;
      if j <= PayloadStart(pes) then Survives(streamType, pes, j, kept, chunks[1..])
      else
        var part := pes[OpensAt(streamType, pes, k, j)..j];
        Survives(streamType, pes, j, kept + Clip(pes, kept, part), chunks[1..])
  }

  lemma PayloadPiece(s: State, pes: seq<Byte>, kept: seq<Byte>, part: seq<Byte>)
    requires WellFormed(pes) && Holds(s, pes, kept)
    ensures Holds(Absorb(s, part), pes, kept + Clip(pes, kept, part))
  {
    hide StartCode, Headerless, RoomOf, PesTimes, WellFormed, TurnPayload, Clip;
    if part == [] {
      assert kept + Clip(pes, kept, []) == kept by { NothingToClip(pes, kept); }
    } else {
      KeepTurn(s, pes, kept, part);
      var t := TurnPayload(s, part);
      assert Absorb(s, part) == Absorb(t, []) == t;
    }
  }

  lemma NothingToClip(pes: seq<Byte>, kept: seq<Byte>)
    requires WellFormed(pes)
    ensures kept + Clip(pes, kept, []) == kept
  {
  }

  lemma KeepTurn(s: State, pes: seq<Byte>, kept: seq<Byte>, part: seq<Byte>)
    requires WellFormed(pes) && Holds(s, pes, kept) && part != []
    ensures Holds(TurnPayload(s, part), pes, kept + Clip(pes, kept, part))
  {
    hide StartCode, Headerless, RoomOf, PesTimes, WellFormed;
  }

  lemma {:induction false} OpeningPiece(s: State, pes: seq<Byte>, k: nat, j: nat)
    requires WellFormed(pes) && Tracks(s, pes, k) && k <= PayloadStart(pes) < j <= |pes|
    ensures var start := PayloadStart(pes);
            var cut := InHeader(s, pes, k) && Cuttable(s.streamType, pes) && start + 5 <= j;
            Holds(Absorb(s, pes[k..j]), pes, Clip(pes, [], pes[if cut then start + 5 else start..j]))
    decreases j - k, Rank(s.phase)
  {
    hide Turn, StartCode, Headerless, RoomOf, PesTimes;
    var (t, rest) := Turn(s, pes[k..j]);
    assert Absorb(s, pes[k..j]) == Absorb(t, rest);
    match s.phase {
      case Payload =>
        PayloadPiece(s, pes, [], pes[k..j]);
      case Header =>
        StartTurn(s, pes, j);
        OpeningPiece(t, pes, PES_START_SIZE, j);
      case PesHeader =>
        FlagsTurn(s, pes, j);
        OpeningPiece(t, pes, PES_HEADER_SIZE, j);
      case PesHeaderFill =>
        if Cuttable(s.streamType, pes) && PayloadStart(pes) + 5 <= j {
          CuttingTurn(s, pes, j);
          PayloadPiece(t, pes, [], rest);
        } else {
          FillTurn(s, pes, j);
          PayloadPiece(t, pes, [], rest);
        }
    }
  }

  lemma {:induction false} FeedHolds(s: State, pes: seq<Byte>, k: nat, kept: seq<Byte>, chunks: seq<seq<Byte>>)
    requires WellFormed(pes) && Holds(s, pes, kept) && PayloadStart(pes) < k <= |pes| && Joined(chunks) == pes[k..]
    ensures Holds(FeedAll(s, chunks), pes, Survives(s.streamType, pes, k, kept, chunks))
    decreases |chunks|
  {
    hide WellFormed, PayloadStart, Wf, Absorb, Clip, RoomOf, Cuttable;
    if chunks != [] {
      FirstPiece(pes, k, chunks);
      var j := k + |chunks[0]|;
      PayloadPiece(s, pes, kept, chunks[0]);
      FeedHolds(Absorb(s, chunks[0]), pes, j, kept + Clip(pes, kept, chunks[0]), chunks[1..]);
    }
  }

  lemma {:induction false} FeedSurvives(s: State, pes: seq<Byte>, k: nat, chunks: seq<seq<Byte>>)
    requires WellFormed(pes) && Settled(s, pes, k) && k <= PayloadStart(pes) && Joined(chunks) == pes[k..]
    ensures Holds(FeedAll(s, chunks), pes, Survives(s.streamType, pes, k, [], chunks))
    decreases |chunks|
  {
    hide StartCode, Headerless, Wf, Absorb, Clip, RoomOf, Cuttable, PesTimes;
    assert chunks != [];
    FirstPiece(pes, k, chunks);
    var j := k + |chunks[0]|;
    var t := Absorb(s, chunks[0]);
    if j <= PayloadStart(pes) {
      AbsorbTracks(s, pes, k, j);
      FeedSurvives(t, pes, j, chunks[1..]);
    } else {
      OpeningPiece(s, pes, k, j);
      var part := Clip(pes, [], pes[OpensAt(s.streamType, pes, k, j)..j]);
      assert [] + part == part;
      FeedHolds(t, pes, j, part, chunks[1..]);
    }
  }

  /** For every packet and every way of cutting it, exactly what comes out. */
  lemma CutYieldsExactly(s: State, pes: seq<Byte>, chunks: seq<seq<Byte>>, next: seq<Byte>)
    requires Wf(s) && WellFormed(pes) && Joined(chunks) == pes
    ensures pes[0..] == pes
    ensures var data := Survives(s.streamType, pes, 0, [], chunks);
            FrameAfter(s, chunks, next) == if data == [] then None else Some(Frame(data, PesTimes(pes).0, PesTimes(pes).1))
  {
    hide WellFormed, PayloadStart, Absorb, RoomOf, Cuttable, PesTimes, Survives;
    BeginTracks(s, pes);
    FeedSurvives(Begin(s), pes, 0, chunks);
  }

  // ------------------------------------------------ cuts the transport can carry

  const MAX_TS_PAYLOAD: nat := 184

  predicate Carriable(chunks: seq<seq<Byte>>) {
    forall i :: 0 <= i < |chunks| ==> |chunks[i]| <= MAX_TS_PAYLOAD
  }

  /** No payload is long enough for a cut behind the header. */
  predicate NoSkip(streamType: int, pes: seq<Byte>)
    requires WellFormed(pes)
  {
    !Cuttable(streamType, pes) || |pes| < PayloadStart(pes) + 5
  }

  /** The payload fits the room asked for, or every transport payload does. */
  predicate RoomSuffices(pes: seq<Byte>)
    requires WellFormed(pes)
  {
    |pes| <= PayloadStart(pes) + RoomOf(pes) || RoomOf(pes) >= MAX_TS_PAYLOAD
  }

  lemma {:induction false} SmallPiecesAreWhole(streamType: int, pes: seq<Byte>, k: nat, chunks: seq<seq<Byte>>,
                                               most: nat)
    requires WellFormed(pes) && k <= |pes| && Joined(chunks) == pes[k..]
    requires forall i :: 0 <= i < |chunks| ==> |chunks[i]| <= most
    requires most < 5 || NoSkip(streamType, pes)
    requires |pes| <= PayloadStart(pes) + RoomOf(pes) || RoomOf(pes) >= most
    ensures CutIsWhole(streamType, pes, k, chunks)
    decreases |chunks|
  {
    hide WellFormed, PayloadStart, RoomOf, Cuttable;
    if chunks != [] {
      FirstPiece(pes, k, chunks);
      SmallPiecesAreWhole(streamType, pes, k + |chunks[0]|, chunks[1..], most);
    }
  }

  /** One byte a payload. */
  function Bytewise(bytes: seq<Byte>): (chunks: seq<seq<Byte>>)
    ensures forall i :: 0 <= i < |chunks| ==> |chunks[i]| == 1
  {
    if bytes == [] then [] else [bytes[..1]] + Bytewise(bytes[1..])
  }

  lemma {:induction false} BytewiseJoins(bytes: seq<Byte>)
    ensures Joined(Bytewise(bytes)) == bytes
  {
    if bytes != [] {
      BytewiseJoins(bytes[1..]);
      assert Bytewise(bytes)[1..] == Bytewise(bytes[1..]);
    }
  }

  /** One byte a payload, but for the bytes k to j, which travel together. */
  function Around(pes: seq<Byte>, k: nat, j: nat): (chunks: seq<seq<Byte>>)
    requires k <= j <= |pes| && j - k <= MAX_TS_PAYLOAD
    ensures Carriable(chunks)
  {
    Bytewise(pes[..k]) + [pes[k..j]] + Bytewise(pes[j..])
  }

  lemma {:induction false} JoinedParts(a: seq<seq<Byte>>, b: seq<seq<Byte>>)
    ensures Joined(a + b) == Joined(a) + Joined(b)
    decreases |a|
  {
    if a == [] {
      assert a + b == b;
    } else {
      JoinedParts(a[1..], b);
      assert (a + b)[1..] == a[1..] + b;
    }
  }

  lemma AroundJoins(pes: seq<Byte>, k: nat, j: nat)
    requires k <= j <= |pes| && j - k <= MAX_TS_PAYLOAD
    ensures Joined(Around(pes, k, j)) == pes
  {
    var before, after := Bytewise(pes[..k]), Bytewise(pes[j..]);
    BytewiseJoins(pes[..k]);
    BytewiseJoins(pes[j..]);
    JoinedParts(before + [pes[k..j]], after);
    JoinedParts(before, [pes[k..j]]);
    assert [pes[k..j]][1..] == [] && pes[k..j] + [] == pes[k..j];
    assert pes == pes[..k] + pes[k..j] + pes[j..];
  }

  lemma {:induction false} BadPieceShows(streamType: int, pes: seq<Byte>, k: nat, before: seq<seq<Byte>>,
                                         piece: seq<Byte>, after: seq<seq<Byte>>)
    requires WellFormed(pes)
    requires var at := k + |Joined(before)|; !Whole(streamType, pes, at, at + |piece|)
    ensures !CutIsWhole(streamType, pes, k, before + [piece] + after)
    decreases |before|
  {
    hide Whole;
    var all := before + [piece] + after;
    if before == [] {
      assert all[0] == piece;
    } else {
      BadPieceShows(streamType, pes, k + |before[0]|, before[1..], piece, after);
      assert all[0] == before[0] && all[1..] == before[1..] + [piece] + after;
    }
  }

  /** A cut that costs payload: the piece that brings the first payload bytes brings
      the five that are cut off, or as many as a transport payload can. */
  function CostlyCut(streamType: int, pes: seq<Byte>): (chunks: seq<seq<Byte>>)
    requires WellFormed(pes) && !(NoSkip(streamType, pes) && RoomSuffices(pes))
    ensures Carriable(chunks)
  {
    var start := PayloadStart(pes);
    if !NoSkip(streamType, pes) then Around(pes, start - 1, start + 5)
    else Around(pes, start, Min(|pes|, start + MAX_TS_PAYLOAD))
  }

  lemma CostlyCutIsNotWhole(streamType: int, pes: seq<Byte>)
    requires WellFormed(pes) && !(NoSkip(streamType, pes) && RoomSuffices(pes))
    ensures Joined(CostlyCut(streamType, pes)) == pes
    ensures !CutIsWhole(streamType, pes, 0, CostlyCut(streamType, pes))
  {
    hide WellFormed, RoomOf, Cuttable, Bytewise, Joined;
    var start := PayloadStart(pes);
    var (k, j) := if !NoSkip(streamType, pes) then (start - 1, start + 5)
                  else (start, Min(|pes|, start + MAX_TS_PAYLOAD));
    AroundJoins(pes, k, j);
    BytewiseJoins(pes[..k]);
    BadPieceShows(streamType, pes, 0, Bytewise(pes[..k]), pes[k..j], Bytewise(pes[j..]));
  }

  /** Fragmentation independence, with its exact limits: all cuts into payloads that
      the transport can carry yield one and the same frame if and only if the room
      suffices and nothing can be cut off as a metadata header.  Otherwise the cut
      into single bytes yields the packet and `CostlyCut` yields less. */
  lemma FragmentationIndependenceIff(s: State, pes: seq<Byte>, next: seq<Byte>)
    requires Wf(s) && WellFormed(pes)
    ensures (forall a, b :: Carriable(a) && Carriable(b) && Joined(a) == pes && Joined(b) == pes ==>
               FrameAfter(s, a, next) == FrameAfter(s, b, next))
       <==> NoSkip(s.streamType, pes) && RoomSuffices(pes)
    ensures FrameAfter(s, Bytewise(pes), next) == FrameOf(pes)
  {
    hide FrameAfter, Wf, WellFormed, PayloadStart, RoomOf, Cuttable, CutIsWhole, CostlyCut;
    var bytes := Bytewise(pes);
    assert pes[0..] == pes;
    BytewiseJoins(pes);
    SmallPiecesAreWhole(s.streamType, pes, 0, bytes, 1);
    CutYieldsThePacketIff(s, pes, bytes, next);
    if NoSkip(s.streamType, pes) && RoomSuffices(pes) {
      forall a | Carriable(a) && Joined(a) == pes
        ensures FrameAfter(s, a, next) == FrameOf(pes)
      {
        ReassemblyYieldsThePacket(s, pes, a, next);
      }
    } else {
      var costly := CostlyCut(s.streamType, pes);
      CostlyCutIsNotWhole(s.streamType, pes);
      CutYieldsThePacketIff(s, pes, costly, next);
      assert Carriable(bytes) && Carriable(costly);
      assert FrameAfter(s, costly, next) != FrameAfter(s, bytes, next);
    }
  }

  lemma TwoPieces(streamType: int, pes: seq<Byte>, k: nat)
    requires WellFormed(pes) && k <= |pes|
    ensures var cut := [pes[..k], pes[k..]];
            && Joined(cut) == pes
            && (CutIsWhole(streamType, pes, 0, cut) <==>
                  Whole(streamType, pes, 0, k) && Whole(streamType, pes, k, |pes|))
  {
    hide WellFormed, Whole;
    var cut := [pes[..k], pes[k..]];
    assert cut[1..] == [pes[k..]] && cut[1..][1..] == [];
    assert Joined(cut[1..]) == pes[k..] + [] == pes[k..] && pes[..k] + pes[k..] == pes;
    assert CutIsWhole(streamType, pes, k, cut[1..]) <==> Whole(streamType, pes, k, |pes|);
  }

  /** Two runs in which the cut shows, in one packet without a length and one that
      announces four bytes and brings six.  The first, on a stream of type 0x15,
      loses payload although it is cut right behind the header: a header of nine
      bytes counts as complete only with the next piece. */
  lemma DifferingCutsRun(s: State, length: Byte, next: seq<Byte>)
    requires Wf(s) && (length == 4 || (length == 0 && s.streamType == 0x15))
    ensures var pes := [0, 0, 1, 0xbd, 0, length, 0x80, 0, 0, 1, 2, 3, 4, 5, 6];
            var cut := [pes[..9], pes[9..]];
            var whole, part := FrameAfter(s, Bytewise(pes), next), FrameAfter(s, cut, next);
            && Joined(cut) == Joined(Bytewise(pes)) == pes
            && whole == Some(Frame([1, 2, 3, 4, 5, 6], NO_PTS, NO_PTS))
            && (part.None? || |part.value.data| < 6)
  {
    hide FrameAfter, Wf, Joined, CutIsWhole, Bytewise, ParsePts;
    var pes: seq<Byte> := [0, 0, 1, 0xbd, 0, length, 0x80, 0, 0, 1, 2, 3, 4, 5, 6];
    SmallPacket(length, pes);
    FragmentationIndependenceIff(s, pes, next);
    BytewiseJoins(pes);
    TwoPieces(s.streamType, pes, 9);
    assert !Whole(s.streamType, pes, 9, 15);
    CutYieldsThePacketIff(s, pes, [pes[..9], pes[9..]], next);
  }

  lemma SmallPacket(length: Byte, pes: seq<Byte>)
    requires pes == [0, 0, 1, 0xbd, 0, length, 0x80, 0, 0, 1, 2, 3, 4, 5, 6]
    ensures WellFormed(pes) && PayloadStart(pes) == 9 && !Headerless(pes[3])
    ensures length == 4 ==> RoomOf(pes) == 4
    ensures FrameOf(pes) == Some(Frame([1, 2, 3, 4, 5, 6], NO_PTS, NO_PTS))
  {
    hide ParsePts;
    assert pes[9..] == [1, 2, 3, 4, 5, 6];
  }

  /** However a packet is cut into transport payloads, the next start unit hands out
      its payload and times. */
  lemma ReassemblyYieldsThePacket(s: State, pes: seq<Byte>, chunks: seq<seq<Byte>>, next: seq<Byte>)
    requires Wf(s) && WellFormed(pes) && Joined(chunks) == pes && Carriable(chunks)
    requires NoSkip(s.streamType, pes) && RoomSuffices(pes)
    ensures FrameAfter(s, chunks, next) == FrameOf(pes)
  {
    hide FrameAfter, Wf, WellFormed, PayloadStart, RoomOf;
    assert pes[0..] == pes;
    SmallPiecesAreWhole(s.streamType, pes, 0, chunks, MAX_TS_PAYLOAD);
    CutYieldsThePacketIff(s, pes, chunks, next);
  }

  // ------------------------------------------------------------- a full round

  /** What the length field says about n bytes after it. */
  function LengthField(n: nat): (field: nat)
    ensures field < 0x1_0000
  {
    if n < 0x1_0000 then n else 0
  }

  /** The times a multiplexer may put into a header. */
  datatype Times = Untimed | Presented(pts: bv64) | Both(pts: bv64, dts: bv64)

  function TimeFlags(times: Times): Byte {
    match times
    case Untimed => 0x00
    case Presented(_) => 0x80
    case Both(_, _) => 0xc0
  }

  function TimeFields(times: Times): seq<Byte> {
    match times
    case Untimed => []
    case Presented(pts) => PtsField(2, pts)
    case Both(pts, dts) => PtsField(3, pts) + PtsField(1, dts)
  }

  /** A packet as a multiplexer writes it: times, whatever else the header holds,
      stuffing, payload.  `more` are the flags of the other optional fields. */
  function Encode(id: Byte, len: (Byte, Byte), marks: Byte, more: Byte, headerLen: Byte, times: Times,
                  rest: seq<Byte>, payload: seq<Byte>): (pes: seq<Byte>)
    ensures |pes| == 9 + |TimeFields(times)| + |rest| + |payload|
  {
    [0, 0, 1, id, len.0, len.1, marks, TimeFlags(times) | more, headerLen] + TimeFields(times) + rest + payload
  }

  /** The two length fields say what follows them; the packet length is zero when
      it does not fit. */
  predicate LengthsRight(len: (Byte, Byte), headerLen: Byte, times: Times, rest: seq<Byte>, payload: seq<Byte>) {
    && headerLen as nat == |TimeFields(times)| + |rest|
    && len.0 as nat * 256 + len.1 as nat == LengthField(3 + headerLen as nat + |payload|)
  }

  lemma EncodeLayout(id: Byte, len: (Byte, Byte), marks: Byte, more: Byte, headerLen: Byte, times: Times,
                     rest: seq<Byte>, payload: seq<Byte>)
    ensures var pes := Encode(id, len, marks, more, headerLen, times, rest, payload);
            var n := |TimeFields(times)|;
            && pes[0] == 0 && pes[1] == 0 && pes[2] == 1 && pes[3] == id
            && pes[4] == len.0 && pes[5] == len.1 && pes[7] == TimeFlags(times) | more && pes[8] == headerLen
            && pes[9..9 + n] == TimeFields(times) && pes[9 + n + |rest|..] == payload
  {
    hide PtsField, TimeFields, TimeFlags;
  }

  lemma FlagsKeepTimes(times: Times, more: Byte)
    requires more & 0xc0 == 0
    ensures (TimeFlags(times) | more) & 0xc0 == TimeFlags(times)
  {
  }

  lemma EncodeIsWellFormed(id: Byte, len: (Byte, Byte), marks: Byte, more: Byte, headerLen: Byte, times: Times,
                           rest: seq<Byte>, payload: seq<Byte>)
    requires !Headerless(id) && id != 0xbe && payload != [] && more & 0xc0 == 0
    requires LengthsRight(len, headerLen, times, rest, payload)
    ensures var pes := Encode(id, len, marks, more, headerLen, times, rest, payload);
            && WellFormed(pes) && pes[3] == id
            && PayloadStart(pes) == 9 + headerLen as nat && pes[PayloadStart(pes)..] == payload
            && RoomSuffices(pes)
            && pes[7] & 0xc0 == TimeFlags(times) && pes[9..9 + |TimeFields(times)|] == TimeFields(times)
  {
    hide PtsField, Encode, TimeFields;
    TimeFieldsFit(times);
    EncodeLayout(id, len, marks, more, headerLen, times, rest, payload);
    FlagsKeepTimes(times, more);
  }

  lemma TimeFieldsFit(times: Times)
    ensures |TimeFields(times)| == match times { case Untimed => 0 case Presented(_) => 5 case Both(_, _) => 10 }
  {
  }

  /** The times of a frame: one that is not given is taken for unknown, and a
      presentation time alone is the decoding time as well. */
  function FrameTimes(times: Times): (bv64, bv64) {
    match times
    case Untimed => (0xFFFF_FFFF_FFFF_FFFF, 0xFFFF_FFFF_FFFF_FFFF)
    case Presented(pts) => (pts, pts)
    case Both(pts, dts) => (pts, dts)
  }

  /** The room for a packet's payload is its length, or 200 KiB if it has none. */
  lemma LengthIsRoom(pes: seq<Byte>, n: nat)
    requires |pes| >= 6 && pes[4] as nat * 256 + pes[5] as nat == n
    ensures RoomOf(pes) == if n == 0 then 204800 else n
  {
  }

  predicate TimesFit(times: Times) {
    match times
    case Untimed => true
    case Presented(pts) => pts < 0x2_0000_0000
    case Both(pts, dts) => pts < 0x2_0000_0000 && dts < 0x2_0000_0000
  }

  lemma EncodedTimes(pes: seq<Byte>, times: Times)
    requires WellFormed(pes) && !Headerless(pes[3]) && TimesFit(times)
    requires pes[7] & 0xc0 == TimeFlags(times)
    requires |pes| >= 9 + |TimeFields(times)| && pes[9..9 + |TimeFields(times)|] == TimeFields(times)
    ensures PesTimes(pes) == FrameTimes(times)
  {
    hide ParsePts, PtsField, StartCode, Headerless;
    match times
    case Untimed =>
    case Presented(pts) =>
      ParsePtsInvertsField(2, pts);
    case Both(pts, dts) =>
      assert pes[9..14] == pes[9..19][..5] && pes[14..19] == pes[9..19][5..];
      ParsePtsInvertsField(3, pts);
      ParsePtsInvertsField(1, dts);
  }

  /** Whatever the multiplexer put in comes out, for any cut into payloads that
      transport packets can carry.  All stream ids have a header but the seven of
      section 2.4.3.7 below, and the padding stream is no packet at all. */
  lemma RoundTrip(s: State, id: Byte, len: (Byte, Byte), marks: Byte, more: Byte, headerLen: Byte, times: Times,
                  rest: seq<Byte>, payload: seq<Byte>, chunks: seq<seq<Byte>>, next: seq<Byte>)
    requires Wf(s) && s.streamType != 0x15 && id !in {0xbc, 0xbe, 0xbf, 0xf0, 0xf1, 0xf2, 0xf8, 0xff}
    requires LengthsRight(len, headerLen, times, rest, payload) && more & 0xc0 == 0
    requires TimesFit(times) && payload != []
    requires Joined(chunks) == Encode(id, len, marks, more, headerLen, times, rest, payload) && Carriable(chunks)
    ensures FrameAfter(s, chunks, next) == Some(Frame(payload, FrameTimes(times).0, FrameTimes(times).1))
  {
    var pes := Encode(id, len, marks, more, headerLen, times, rest, payload);
    HasHeaderIff(id);
    hide FrameAfter, Wf, ParsePts, PtsField, RoomOf, StartCode, Encode, FrameTimes, Headerless, TimeFields;
    EncodeIsWellFormed(id, len, marks, more, headerLen, times, rest, payload);
    EncodedTimes(pes, times);
    ReassemblyYieldsThePacket(s, pes, chunks, next);
  }

  lemma HasHeaderIff(id: Byte)
    ensures Headerless(id) <==> id in {0xbc, 0xbf, 0xf0, 0xf1, 0xf2, 0xf8, 0xff}
  {
  }

  /** A packet of one of the seven ids is payload from its seventh byte on, on
      streams of every type. */
  lemma HeaderlessRoundTrip(s: State, id: Byte, len: (Byte, Byte), payload: seq<Byte>, chunks: seq<seq<Byte>>,
                            next: seq<Byte>)
    requires Wf(s) && id in {0xbc, 0xbf, 0xf0, 0xf1, 0xf2, 0xf8, 0xff} && payload != []
    requires len.0 as nat * 256 + len.1 as nat == LengthField(|payload|)
    requires Joined(chunks) == [0, 0, 1, id, len.0, len.1] + payload && Carriable(chunks)
    ensures FrameAfter(s, chunks, next) == Some(Frame(payload, NO_PTS, NO_PTS))
  {
    var pes := [0, 0, 1, id, len.0, len.1] + payload;
    HasHeaderIff(id);
    HeaderlessLayout(id, len, payload, pes);
    hide FrameAfter, Wf, StartCode, Headerless, RoomOf;
    ReassemblyYieldsThePacket(s, pes, chunks, next);
  }

  lemma HeaderlessLayout(id: Byte, len: (Byte, Byte), payload: seq<Byte>, pes: seq<Byte>)
    requires Headerless(id) && payload != [] && pes == [0, 0, 1, id, len.0, len.1] + payload
    requires len.0 as nat * 256 + len.1 as nat == LengthField(|payload|)
    ensures pes[3] == id && WellFormed(pes) && PayloadStart(pes) == 6 && pes[6..] == payload && RoomSuffices(pes)
  {
  }

  // ---------------------------------------------------- the extended stream id

  /** The flag byte of a header extension that carries these optional fields, no
      pack header, and the second extension. */
  function ExtensionFlags(privateData: bool, counter: bool, buffer: bool): Byte {
    (if privateData then 0x80 else 0) | (if counter then 0x20 else 0) | (if buffer then 0x10 else 0) | 0x0f
  }

  /** Bytes of private data, sequence counter and buffer size. */
  function ExtensionSize(privateData: bool, counter: bool, buffer: bool): nat {
    (if privateData then 16 else 0) + (if counter then 2 else 0) + (if buffer then 2 else 0)
  }

  lemma ExtensionIsSkipped(privateData: bool, counter: bool, buffer: bool)
    ensures var ext := ExtensionFlags(privateData, counter, buffer);
            var skip := (ext >> 4) & 0xb;
            && (skip + (skip & 0x9)) as nat == ExtensionSize(privateData, counter, buffer)
            && ext & 0x41 == 1
  {
    var ext := ExtensionFlags(privateData, counter, buffer);
    if privateData {
      assert ext in {0x8f, 0xaf, 0x9f, 0xbf};
    } else {
      assert ext in {0x0f, 0x2f, 0x1f, 0x3f};
    }
  }

  /** The stream id extension is found behind whatever optional fields the header
      has, if the header is long enough to hold it, the field has a length, and it
      is an id and not something else. */
  lemma ExtendedIdInverts(h: seq<Byte>, headerSize: nat, times: Times, privateData: bool, counter: bool,
                          buffer: bool, len: Byte, id: Byte)
    requires |h| == MAX_PES_HEADER_SIZE && h[7] & 1 == 1 && h[7] & 0xc0 == TimeFlags(times)
    requires var at := 9 + |TimeFields(times)|;
             var second := at + 1 + ExtensionSize(privateData, counter, buffer);
             && h[at] == ExtensionFlags(privateData, counter, buffer)
             && second + 2 <= |h| && headerSize <= |h| && len < 0x80
             && h[second] == 0x80 | len && h[second + 1] == id
    ensures var second := 9 + |TimeFields(times)| + 1 + ExtensionSize(privateData, counter, buffer);
            ExtendedIdOf(h, headerSize) == if second + 2 <= headerSize && 0 < len && id < 0x80 then id as int else -1
  {
    hide PtsField, ExtensionFlags;
    TimeFieldsFit(times);
    ExtensionIsSkipped(privateData, counter, buffer);
    LengthBack(len);
    SmallId(id);
  }

  lemma LengthBack(len: Byte)
    requires len < 0x80
    ensures (0x80 | len) & 0x7f == len
  {
  }

  lemma SmallId(id: Byte)
    ensures id & 0x80 == 0 <==> id < 0x80
  {
  }

  /** Without an extension, or with one that holds a pack header or no second
      extension, there is no such id. */
  lemma NoExtensionNoId(h: seq<Byte>, headerSize: nat, times: Times)
    requires |h| == MAX_PES_HEADER_SIZE && headerSize <= |h| && h[7] & 0xc0 == TimeFlags(times)
    requires h[7] & 1 == 0 || h[9 + |TimeFields(times)|] & 0x41 != 1
    ensures ExtendedIdOf(h, headerSize) == -1
  {
    TimeFieldsFit(times);
  }

  // -------------------------------------------------------------- no packet

  /** The first k bytes have been taken in and make no packet. */
  predicate Idle(s: State, bytes: seq<Byte>, k: nat) {
    Wf(s) && (s.phase.Skip? || (s.phase.Header? && s.dataIndex == k <= |bytes| && s.header[..k] == bytes[..k]))
  }

  predicate NoPacket(bytes: seq<Byte>) {
    |bytes| < 6 || bytes[..3] != [0, 0, 1] || bytes[3] == 0xbe
  }

  lemma {:induction false} NoPacketIdles(s: State, bytes: seq<Byte>, k: nat, chunks: seq<seq<Byte>>)
    requires NoPacket(bytes) && Idle(s, bytes, k) && k <= |bytes| && Joined(chunks) == bytes[k..]
    ensures Idle(FeedAll(s, chunks), bytes, |bytes|)
    decreases |chunks|
  {
    hide NoPacket, Idle, Absorb, Wf;
    if chunks == [] {
      assert |bytes[k..]| == 0;
    } else {
      FirstPiece(bytes, k, chunks);
      IdleIsWf(s, bytes, k);
      NoPacketPiece(s, bytes, k, k + |chunks[0]|);
      NoPacketIdles(Absorb(s, chunks[0]), bytes, k + |chunks[0]|, chunks[1..]);
    }
  }

  lemma IdleIsWf(s: State, bytes: seq<Byte>, k: nat)
    requires Idle(s, bytes, k)
    ensures Wf(s) && !s.phase.Invalid? && !s.phase.Payload?
  {
  }

  lemma NoPacketPiece(s: State, bytes: seq<Byte>, k: nat, j: nat)
    requires NoPacket(bytes) && Idle(s, bytes, k) && k <= j <= |bytes|
    ensures Idle(Absorb(s, bytes[k..j]), bytes, j)
  {
    hide Classified, Patch;
    if k < j {
      var (t, rest) := Turn(s, bytes[k..j]);
      assert Absorb(s, bytes[k..j]) == Absorb(t, rest);
      if s.phase.Header? {
        CollectCopies(s, bytes, j, PES_START_SIZE);
        if j >= PES_START_SIZE {
          NoPacketIsSkipped(Collect(s, bytes[k..j], PES_START_SIZE).0, bytes);
        }
      }
      SkippedStays(t, rest);
    }
  }

  lemma NoPacketIsSkipped(s: State, bytes: seq<Byte>)
    requires NoPacket(bytes) && |bytes| >= 6 && |s.header| == MAX_PES_HEADER_SIZE && s.header[..6] == bytes[..6]
    ensures Classified(s) == s.(phase := Skip)
  {
    FirstSix(s.header, bytes);
    assert forall i :: 0 <= i < 3 ==> s.header[i] == bytes[i];
    if s.header[0] == 0 && s.header[1] == 0 && s.header[2] == 1 {
      assert bytes[..3] == [0, 0, 1];
    }
  }

  lemma SkippedStays(s: State, rest: seq<Byte>)
    requires Wf(s) && !s.phase.Invalid? && (s.phase.Skip? || rest == [])
    ensures Absorb(s, rest) == s
  {
    if rest != [] {
      assert Absorb(s, rest) == Absorb(s, []) == s;
    }
  }

  /** What does not start with the start code, or is padding, or ends before the
      length field, is passed over. */
  lemma NoPacketNoFrame(s: State, bytes: seq<Byte>, chunks: seq<seq<Byte>>, next: seq<Byte>)
    requires Wf(s) && NoPacket(bytes) && Joined(chunks) == bytes
    ensures FrameAfter(s, chunks, next) == None
  {
    hide NoPacket, Absorb;
    assert Idle(Begin(s), bytes, 0) && bytes[0..] == bytes;
    NoPacketIdles(Begin(s), bytes, 0, chunks);
    IdleIsWf(FeedAll(Begin(s), chunks), bytes, |bytes|);
  }

  /** Only a start unit hands out a frame, and never an empty one. */
  lemma FramesHaveData(s: State, unitStart: bool, payload: seq<Byte>)
    requires Wf(s)
    ensures var frame := Handle(s, unitStart, payload).0;
            frame.Some? ==> unitStart && frame.value.data != []
  {
  }
}
