/**
 Whole transport streams: packet after packet through the reassembly of one
 elementary stream.
 */
module PesPlay {
  import opened Common
  import opened Circular
  import opened Pes

  datatype TsPacket = TsPacket(unitStart: bool, payload: seq<Byte>)

  function Listed(frame: Option<Frame>): seq<Frame> {
    match frame
    case None => []
    case Some(f) => [f]
  }

  /** `handle_ts_pkt` over the packets of one PID: the frames handed out. */
  function Play(s: State, packets: seq<TsPacket>): (r: (seq<Frame>, State))
    requires Wf(s)
    ensures Wf(r.1)
    decreases |packets|
  {
    if packets == [] then ([], s)
    else
      var (frame, t) := Handle(s, packets[0].unitStart, packets[0].payload);
      var (frames, u) := Play(t, packets[1..]);
      (Listed(frame) + frames, u)
  }

  function Continued(chunks: seq<seq<Byte>>): seq<TsPacket> {
    if chunks == [] then [] else [TsPacket(false, chunks[0])] + Continued(chunks[1..])
  }

  /** A packet's pieces on the transport stream. */
  function Unit(chunks: seq<seq<Byte>>): seq<TsPacket> {
    if chunks == [] then [] else [TsPacket(true, chunks[0])] + Continued(chunks[1..])
  }

  function Units(cuts: seq<seq<seq<Byte>>>): seq<TsPacket> {
    if cuts == [] then [] else Unit(cuts[0]) + Units(cuts[1..])
  }

  lemma PlayFirst(s: State, p: TsPacket, rest: seq<TsPacket>)
    requires Wf(s)
    ensures var (frame, t) := Handle(s, p.unitStart, p.payload);
            Play(s, [p] + rest) == (Listed(frame) + Play(t, rest).0, Play(t, rest).1)
  {
    hide Wf, Handle, Listed;
    assert ([p] + rest)[1..] == rest;
  }

  lemma {:induction false} ContinuedPlays(s: State, chunks: seq<seq<Byte>>, rest: seq<TsPacket>)
    requires Wf(s) && !s.phase.Invalid?
    ensures Play(s, Continued(chunks) + rest) == Play(FeedAll(s, chunks), rest)
    decreases |chunks|
  {
    hide Wf, Absorb, Play;
    if chunks == [] {
      assert Continued(chunks) + rest == rest;
    } else {
      var t := Absorb(s, chunks[0]);
      var p := TsPacket(false, chunks[0]);
      assert Continued(chunks) + rest == [p] + (Continued(chunks[1..]) + rest);
      PlayFirst(s, p, Continued(chunks[1..]) + rest);
      ContinuedPlays(t, chunks[1..], rest);
      assert [] + Play(t, Continued(chunks[1..]) + rest).0 == Play(t, Continued(chunks[1..]) + rest).0;
    }
  }

  /** The frame under way that the next start unit will hand out. */
  function Pending(s: State): seq<Frame> {
    if s.phase.Payload? && s.body != [] then [Frame(s.body, s.pts, s.dts)] else []
  }

  lemma UnitPlays(s: State, chunks: seq<seq<Byte>>, rest: seq<TsPacket>)
    requires Wf(s) && chunks != []
    ensures var t := FeedAll(Begin(s), chunks);
            Play(s, Unit(chunks) + rest) == (Pending(s) + Play(t, rest).0, Play(t, rest).1)
  {
    hide Wf, Absorb, Play;
    var p := TsPacket(true, chunks[0]);
    assert Unit(chunks) + rest == [p] + (Continued(chunks[1..]) + rest);
    PlayFirst(s, p, Continued(chunks[1..]) + rest);
    ContinuedPlays(Absorb(Begin(s), chunks[0]), chunks[1..], rest);
  }

  /** A packet and a cut that loses nothing of it. */
  predicate Sound(streamType: int, pes: seq<Byte>, chunks: seq<seq<Byte>>) {
    WellFormed(pes) && chunks != [] && Joined(chunks) == pes && CutIsWhole(streamType, pes, 0, chunks)
  }

  function FramesOf(packets: seq<seq<Byte>>): seq<Frame>
    requires forall i :: 0 <= i < |packets| ==> WellFormed(packets[i])
  {
    if packets == [] then [] else Listed(FrameOf(packets[0])) + FramesOf(packets[1..])
  }

  lemma SoundUnitIsPending(s: State, pes: seq<Byte>, chunks: seq<seq<Byte>>)
    requires Wf(s) && Sound(s.streamType, pes, chunks)
    ensures var t := FeedAll(Begin(s), chunks);
            t.streamType == s.streamType && Pending(t) == Listed(FrameOf(pes))
  {
    hide Wf, Absorb, WellFormed, CutIsWhole, FrameOf;
    CutYieldsThePacketIff(s, pes, chunks, []);
  }

  /** From whatever was under way: the frames come out in the packets' order, each
      once, the last with the start unit behind it. */
  lemma {:induction false} StreamPlays(s: State, packets: seq<seq<Byte>>, cuts: seq<seq<seq<Byte>>>, next: seq<Byte>)
    requires Wf(s) && |packets| == |cuts|
    requires forall i :: 0 <= i < |cuts| ==> WellFormed(packets[i]) && Sound(s.streamType, packets[i], cuts[i])
    ensures Play(s, Units(cuts) + [TsPacket(true, next)]).0 == Pending(s) + FramesOf(packets)
    decreases |cuts|
  {
    hide Wf, WellFormed, Sound, Play, Pending, FeedAll, Unit, FrameOf;
    var last := [TsPacket(true, next)];
    if cuts == [] {
      assert Units(cuts) + last == last;
      LastStart(s, next);
    } else {
      assert Sound(s.streamType, packets[0], cuts[0]);
      SoundIsCut(s.streamType, packets[0], cuts[0]);
      SoundUnitIsPending(s, packets[0], cuts[0]);
      UnitPlays(s, cuts[0], Units(cuts[1..]) + last);
      var t := FeedAll(Begin(s), cuts[0]);
      StreamPlays(t, packets[1..], cuts[1..], next);
      assert Units(cuts) + last == Unit(cuts[0]) + (Units(cuts[1..]) + last);
    }
  }

  lemma SoundIsCut(streamType: int, pes: seq<Byte>, chunks: seq<seq<Byte>>)
    requires Sound(streamType, pes, chunks)
    ensures chunks != []
  {
  }

  lemma LastStart(s: State, next: seq<Byte>)
    requires Wf(s)
    ensures Play(s, [TsPacket(true, next)]).0 == Pending(s)
  {
    hide Wf, Absorb, Play;
    var p := TsPacket(true, next);
    assert [p] + [] == [p];
    PlayFirst(s, p, []);
    PlayNone(Handle(s, true, next).1);
  }

  lemma PlayNone(s: State)
    requires Wf(s)
    ensures Play(s, []) == ([], s)
  {
  }
}
