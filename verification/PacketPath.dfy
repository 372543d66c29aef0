/**
 The way of a packet from the demuxer to the port queues: the I/O thread, the
 queues it writes, the consumers that take from them, and the seek that pauses
 the thread, empties the host and starts over.

 A step is one access to the shared control words, one call into the demuxer or
 the host.  The head of the I/O loop (flag test, status tests and the disposal
 of the pending packet) is a single step.
 */
module PacketPath {
  import opened Common

  datatype Kind = Video | Audio | Subtitle | Other

  /** `epoch` counts the demuxer seeks before the packet was read. */
  datatype Packet = Packet(kind: Kind, key: bool, size: nat, epoch: nat)

  datatype Setting = Setting(
    hasAudio: bool, hasVideo: bool, hasSub: bool,
    audioMaxNum: nat, audioMaxSize: nat, videoMaxSize: nat
  )

  // --------------------------------------------------------------- the queues

  function Size(q: seq<Packet>): nat {
    if q == [] then 0 else Size(q[..|q| - 1]) + q[|q| - 1].size
  }

  datatype Port = Port(audio: seq<Packet>, video: seq<Packet>, sub: seq<Packet>)

  const EMPTY_PORT: Port := Port([], [], [])

  function Queue(p: Port, k: Kind): seq<Packet> {
    match k
    case Video => p.video
    case Audio => p.audio
    case Subtitle => p.sub
    case Other => []
  }

  function With(p: Port, k: Kind, q: seq<Packet>): Port {
    match k
    case Video => p.(video := q)
    case Audio => p.(audio := q)
    case Subtitle => p.(sub := q)
    case Other => p
  }

  /** A subtitle packet without a subtitle track is reported written and vanishes. */
  predicate Ignored(g: Setting, pkt: Packet) {
    !g.hasSub && pkt.kind.Subtitle?
  }

  /** The test `port_write_frame` makes before it takes a queue's lock. */
  predicate GateOpen(g: Setting, p: Port) {
    (g.hasAudio && |p.audio| < g.audioMaxNum) || (g.hasVideo && |p.video| < g.videoMaxSize)
  }

  /** The test `packet_queue_put` makes: a queue of audio or video packets takes
      another one until it has reached its size. */
  predicate HasRoom(g: Setting, q: seq<Packet>, k: Kind) {
    (k.Video? ==> Size(q) < g.videoMaxSize) && (k.Audio? ==> Size(q) < g.audioMaxSize)
  }

  /** `host_write_frame` down to `packet_queue_put`: whether the write succeeds. */
  predicate Accepts(g: Setting, p: Port, pkt: Packet) {
    || Ignored(g, pkt)
    || (&& GateOpen(g, p)
        && pkt.kind != Other
        && HasRoom(g, Queue(p, pkt.kind), pkt.kind))
  }

  function Written(g: Setting, p: Port, pkt: Packet): Port {
    if Ignored(g, pkt) then p else With(p, pkt.kind, Queue(p, pkt.kind) + [pkt])
  }

  // --------------------------------------------------------------- the system

  datatype Status = Paused | Running | Quit

  datatype IoPc = Head | ReadPacket | KeyTest | WritePacket | Dead

  /** Where `player_seekto` is. */
  datatype PlayerPc =
    | Playing | Raise | Await | Lower | Stop | Demux | Init | WaitKey | Resume
    | ResumeFlag | ResumeStatus | Restart | Failed

  /** What happened to the packets read since the demuxer was last positioned. */
  datatype Log = Log(
    filter: bool,             // whether a key frame was waited for at first
    read: seq<Packet>,        // handed over by the demuxer
    accepted: seq<Packet>,    // passed the key frame test
    written: seq<Packet>,     // taken by the host
    lost: seq<Packet>,        // thrown away by the paused thread
    taken: Port,              // read by consumers
    flushed: Port             // thrown away with the port
  )

  function NoLog(filter: bool): Log {
    Log(filter, [], [], [], [], EMPTY_PORT, EMPTY_PORT)
  }

  datatype Sys = Sys(
    status: Status,
    flag: bool,               // IO_FLAG_PAUSE
    io: IoPc,
    pending: Option<Packet>,
    waitKey: bool,
    port: Port,
    player: PlayerPc,
    epoch: nat,
    log: Log
  )

  datatype Reading = Got(kind: Kind, key: bool, size: nat) | Eof | Again

  datatype Step =
    | Io(reading: Reading)
    | Take(kind: Kind)
    | BeginSeek
    | Player(demuxOk: bool)

  predicate Enabled(s: Sys, step: Step) {
    match step
    case Io(_) => s.io != Dead && s.player != Failed
    case Take(k) => Queue(s.port, k) != []
    case BeginSeek => s.player.Playing?
    case Player(_) => s.player !in {Playing, Failed} && (s.player.Restart? ==> s.io.Dead?)
  }

  function IoStep(g: Setting, s: Sys, reading: Reading): Sys {
    match s.io
    case Head =>
      var status := if s.flag then Paused else s.status;
      if status.Quit? then s.(status := status, io := Dead)
      else if status.Paused? then
        s.(status := status, pending := None,
           log := if s.pending.Some? then s.log.(lost := s.log.lost + [s.pending.value]) else s.log)
      else s.(status := status, io := if s.pending.Some? then WritePacket else ReadPacket)
    case ReadPacket =>
      (match reading
       case Got(kind, key, size) =>
         var pkt := Packet(kind, key, size, s.epoch);
         s.(pending := Some(pkt), io := KeyTest, log := s.log.(read := s.log.read + [pkt]))
       case Eof => s.(status := Quit, io := Head)
       case Again => s.(io := Head))
    case KeyTest =>
      if s.pending.None? then s
      else
        var pkt := s.pending.value;
        if s.waitKey && !(pkt.kind.Video? && pkt.key) then s.(pending := None, io := Head)
        else s.(waitKey := false, io := WritePacket, log := s.log.(accepted := s.log.accepted + [pkt]))
    case WritePacket =>
      if s.pending.None? then s
      else
        var pkt := s.pending.value;
        if Accepts(g, s.port, pkt) then
          s.(port := Written(g, s.port, pkt), pending := None, io := Head,
             log := s.log.(written := s.log.written + [pkt]))
        else s.(io := Head)
    case Dead => s
  }

  function PlayerStep(s: Sys, demuxOk: bool): Sys {
    match s.player
    case Playing => s
    case Raise => s.(flag := true, player := Await)
    case Await => if s.status.Paused? then s.(player := Lower) else s
    case Lower => s.(flag := false, player := Stop)
    case Stop =>
      s.(port := EMPTY_PORT, player := Demux,
         log := s.log.(flushed := Port(s.log.flushed.audio + s.port.audio, s.log.flushed.video + s.port.video,
                                       s.log.flushed.sub + s.port.sub)))
    case Demux => if demuxOk then s.(epoch := s.epoch + 1, log := NoLog(true), player := Init) else s.(player := Failed)
    case Init => s.(port := EMPTY_PORT, player := WaitKey)
    case WaitKey => s.(waitKey := true, player := Resume)
    case Resume => s.(player := if s.status.Quit? then Restart else ResumeFlag)
    case ResumeFlag => s.(flag := false, player := ResumeStatus)
    case ResumeStatus => s.(status := Running, player := Playing)
    case Restart => s.(status := Paused, flag := false, io := Head, pending := None, player := ResumeStatus)
    case Failed => s
  }

  function Apply(g: Setting, s: Sys, step: Step): Sys {
    match step
    case Io(reading) => IoStep(g, s, reading)
    case Take(k) =>
      var q := Queue(s.port, k);
      if q == [] then s
      else s.(port := With(s.port, k, q[1..]),
              log := s.log.(taken := With(s.log.taken, k, Queue(s.log.taken, k) + [q[0]])))
    case BeginSeek => s.(player := if s.status.Quit? then Stop else Raise)
    case Player(ok) => PlayerStep(s, ok)
  }

  /** `start_io_thread` has set the status to paused and is about to set it to
      running; nothing has been read. */
  predicate Initial(s: Sys) {
    s == Sys(Paused, false, Head, None, s.waitKey, EMPTY_PORT, ResumeStatus, 0, NoLog(s.waitKey))
  }

  // ------------------------------------------------------------ pause protocol

  /** The seek has the I/O thread out of the way. */
  predicate Halted(s: Sys) {
    s.player in {Lower, Stop, Demux, Init, WaitKey, Resume, ResumeFlag, ResumeStatus, Restart, Failed}
  }

  predicate Protocol(s: Sys) {
    && (s.status.Paused? ==> s.io.Head? && s.pending.None?)
    && (s.status.Quit? ==> s.io in {Head, Dead} && s.pending.None?)
    && (s.io.Dead? ==> s.status.Quit?)
    && (s.io.ReadPacket? ==> s.pending.None?)
    && (s.io in {KeyTest, WritePacket} ==> s.pending.Some?)
    && (s.flag <==> s.player in {Await, Lower})
    && (Halted(s) ==> s.status != Running)
    && (s.player in {ResumeFlag, ResumeStatus} ==> s.status.Paused?)
    && (s.player.Restart? ==> s.status.Quit?)
  }

  lemma ProtocolKept(g: Setting, s: Sys, step: Step)
    requires Protocol(s) && Enabled(s, step)
    ensures Protocol(Apply(g, s, step))
  {
  }

  /** The gate test needs no lock: once it lets the I/O thread pass, no step of
      another thread shuts it before the packet is put. */
  lemma GateStaysOpen(g: Setting, s: Sys, step: Step)
    requires GateOpen(g, s.port) && !step.Io? && Enabled(s, step)
    ensures GateOpen(g, Apply(g, s, step).port)
  {
  }

  // ------------------------------------------------------- waiting for the pause

  /** Accesses the I/O thread makes before it next tests the pause flag. */
  function ToHead(io: IoPc): nat {
    match io
    case Head => 0
    case Dead => 0
    case WritePacket => 1
    case KeyTest => 2
    case ReadPacket => 3
  }

  /** A thread that is alive when the seek raises its flag acknowledges it with its
      fourth access at the latest, even if the stream ends meanwhile; one that is
      not never does, and then nothing else gets the seek any further. */
  lemma AwaitIsLeftIff(g: Setting, s: Sys, step: Step)
    requires Protocol(s) && s.player.Await? && s.status != Paused && Enabled(s, step)
    ensures var t := Apply(g, s, step);
            && t.player.Await? && ToHead(s.io) <= 3
            && (s.io.Dead? ==> t.io.Dead? && t.status != Paused)
            && (!s.io.Dead? ==> !t.io.Dead?)
            && (!s.io.Dead? && step.Io? ==> if s.io.Head? then t.status.Paused? else ToHead(t.io) < ToHead(s.io))
            && (!step.Io? ==> t.io == s.io && t.status == s.status)
  {
    hide Accepts, Written;
  }


  // -------------------------------------------------------------- conservation

  /** The packets of one kind, in order. */
  function OfKind(k: Kind, s: seq<Packet>): seq<Packet> {
    if s == [] then []
    else
      var last := s[|s| - 1];
      OfKind(k, s[..|s| - 1]) + (if last.kind == k then [last] else [])
  }

  lemma {:induction false} OfKindJoins(k: Kind, a: seq<Packet>, b: seq<Packet>)
    ensures OfKind(k, a + b) == OfKind(k, a) + OfKind(k, b)
    decreases |b|
  {
    if b == [] {
      assert a + b == a;
    } else {
      OfKindJoins(k, a, b[..|b| - 1]);
      assert (a + b)[..|a + b| - 1] == a + b[..|b| - 1];
    }
  }

  lemma OfKindGrows(k: Kind, s: seq<Packet>, pkt: Packet)
    ensures OfKind(k, s + [pkt]) == OfKind(k, s) + (if pkt.kind == k then [pkt] else [])
  {
    assert (s + [pkt])[..|s|] == s;
  }

  /** The one packet that has passed the key test and is not yet written. */
  function InHand(s: Sys): seq<Packet> {
    if s.pending.Some? && s.io != KeyTest then [s.pending.value] else []
  }

  predicate IsKey(pkt: Packet) {
    pkt.kind.Video? && pkt.key
  }

  predicate AllOfEpoch(epoch: nat, q: seq<Packet>) {
    forall i :: 0 <= i < |q| ==> q[i].epoch == epoch
  }

  /** Nothing read before the demuxer was last positioned is still around. */
  predicate Clean(s: Sys) {
    && AllOfEpoch(s.epoch, s.port.audio) && AllOfEpoch(s.epoch, s.port.video) && AllOfEpoch(s.epoch, s.port.sub)
    && (s.pending.Some? ==> s.pending.value.epoch == s.epoch)
    && (s.player in {Demux, Init, WaitKey, Resume, ResumeFlag, ResumeStatus, Restart} ==> s.port == EMPTY_PORT)
  }

  /** The packets from the first video key frame on. */
  function FromKey(q: seq<Packet>): seq<Packet> {
    if q == [] || IsKey(q[0]) then q else FromKey(q[1..])
  }

  lemma {:induction false} FromKeyGrows(q: seq<Packet>, pkt: Packet)
    ensures FromKey(q + [pkt]) ==
      if FromKey(q) != [] then FromKey(q) + [pkt] else if IsKey(pkt) then [pkt] else []
    decreases |q|
  {
    if q == [] {
      assert q + [pkt] == [pkt] && [pkt][1..] == [];
    } else if !IsKey(q[0]) {
      FromKeyGrows(q[1..], pkt);
      assert (q + [pkt])[1..] == q[1..] + [pkt];
    }
  }

  lemma {:induction false} FromKeyStarts(q: seq<Packet>)
    ensures FromKey(q) != [] ==> IsKey(FromKey(q)[0])
    decreases |q|
  {
    if q != [] && !IsKey(q[0]) {
      FromKeyStarts(q[1..]);
    }
  }

  /** The packets read that have been through the key frame test. */
  function Tested(s: Sys): seq<Packet> {
    if s.io.KeyTest? && s.log.read != [] then s.log.read[..|s.log.read| - 1] else s.log.read
  }

  /** What is accepted is what was read, from the first video key frame on if one
      was waited for; the wait is on exactly until one has come. */
  predicate Filtered(s: Sys) {
    && s.log.accepted == (if s.log.filter then FromKey(Tested(s)) else Tested(s))
    && (s.epoch > 0 ==> s.log.filter)
    && (!s.log.filter ==> !s.waitKey)
    && (s.log.filter && s.player !in {Init, WaitKey} ==> (s.waitKey <==> s.log.accepted == []))
    && (s.player in {Init, WaitKey} ==> s.log.filter && s.log.read == [])
    && (s.io.KeyTest? ==> s.log.read != [] && s.pending == Some(s.log.read[|s.log.read| - 1]))
  }

  /** Accepted packets are written, in hand, or the single one the pause cost. */
  predicate Flow(s: Sys) {
    && s.log.accepted == s.log.written + s.log.lost + InHand(s)
    && |s.log.lost| <= 1
    && (s.log.lost != [] ==> s.status.Paused? && s.player in {Await, Lower, Stop, Demux, Failed})
  }

  /** Written packets of a kind were taken, flushed with the port, or are queued;
      without a subtitle track no subtitle gets that far. */
  predicate Kept(g: Setting, s: Sys, k: Kind) {
    && (if k.Subtitle? && !g.hasSub then [] else OfKind(k, s.log.written))
       == Queue(s.log.taken, k) + Queue(s.log.flushed, k) + Queue(s.port, k)
    && (Queue(s.log.flushed, k) != [] ==> s.player in {Demux, Failed} && Queue(s.port, k) == [])
  }

  predicate Inv(g: Setting, s: Sys) {
    && Protocol(s) && Clean(s) && Filtered(s) && Flow(s)
    && Kept(g, s, Video) && Kept(g, s, Audio) && Kept(g, s, Subtitle) && Kept(g, s, Other)
  }

  lemma NoneOfEpoch()
    ensures forall e :: AllOfEpoch(e, [])
  {
  }

  lemma EpochGrows(epoch: nat, q: seq<Packet>, pkt: Packet)
    ensures AllOfEpoch(epoch, q) && pkt.epoch == epoch ==> AllOfEpoch(epoch, q + [pkt])
  {
  }

  lemma EpochShrinks(epoch: nat, q: seq<Packet>)
    ensures AllOfEpoch(epoch, q) && q != [] ==> AllOfEpoch(epoch, q[1..])
  {
  }

  lemma CleanKept(g: Setting, s: Sys, step: Step)
    requires Protocol(s) && Clean(s) && Enabled(s, step)
    ensures Clean(Apply(g, s, step))
  {
    hide Accepts, AllOfEpoch;
    NoneOfEpoch();
    if step.Take? {
      EpochShrinks(s.epoch, Queue(s.port, step.kind));
    } else if step.Io? && s.pending.Some? && s.pending.value.epoch == s.epoch {
      EpochGrows(s.epoch, Queue(s.port, s.pending.value.kind), s.pending.value);
    }
  }

  lemma FilteredKept(g: Setting, s: Sys, step: Step)
    requires Protocol(s) && Filtered(s) && Enabled(s, step)
    ensures Filtered(Apply(g, s, step))
  {
    hide Accepts, Written, FromKey;
    NothingFromKey();
    if step.Io? && s.io.KeyTest? {
      TestKeepsFiltered(g, s);
    } else if step.Io? && s.io.ReadPacket? {
      ReadKeepsFiltered(g, s, step.reading);
    }
  }

  lemma NothingFromKey()
    ensures FromKey([]) == []
  {
  }

  lemma TestKeepsFiltered(g: Setting, s: Sys)
    requires Protocol(s) && Filtered(s) && s.io.KeyTest?
    ensures forall reading :: Filtered(IoStep(g, s, reading))
  {
    hide FromKey;
    FromKeyGrows(Tested(s), s.pending.value);
    assert Tested(s) + [s.pending.value] == s.log.read;
    assert !Halted(s);
  }

  lemma ReadKeepsFiltered(g: Setting, s: Sys, reading: Reading)
    requires Protocol(s) && Filtered(s) && s.io.ReadPacket?
    ensures Filtered(IoStep(g, s, reading))
  {
    hide FromKey;
    var t := IoStep(g, s, reading);
    if reading.Got? {
      assert t.log.read[..|s.log.read|] == s.log.read;
      assert !Halted(s);
    }
  }

  lemma FlowKept(g: Setting, s: Sys, step: Step)
    requires Protocol(s) && Flow(s) && Enabled(s, step)
    ensures Flow(Apply(g, s, step))
  {
    var t := Apply(g, s, step);
    var log := s.log;
    if step.Io? && s.io.WritePacket? && Accepts(g, s.port, s.pending.value) {
      assert log.lost == [];
      assert log.written + [] + InHand(s) == (log.written + InHand(s)) + [] + [];
    } else if step.Io? && s.io.Head? && t.pending.None? && s.pending.Some? {
      assert log.lost == [];
      assert log.written + [] + InHand(s) == log.written + InHand(s) + [];
    } else if step.Io? && s.io.KeyTest? {
      assert log.written + log.lost + [] == log.written + log.lost;
    }
  }

  lemma KeptKept(g: Setting, s: Sys, step: Step, k: Kind)
    requires Protocol(s) && Clean(s) && Kept(g, s, k) && Enabled(s, step)
    ensures Kept(g, Apply(g, s, step), k)
  {
    hide Accepts, Written, Clean, Kept, OfKind;
    match step
    case Io(reading) =>
      if s.io.WritePacket? && Accepts(g, s.port, s.pending.value) {
        WriteKeepsKept(g, s, k);
      } else {
        SameKept(g, s, IoStep(g, s, reading), k);
      }
    case Take(kind) =>
      TakeKeepsKept(g, s, kind, k);
    case BeginSeek =>
      SameKept(g, s, Apply(g, s, BeginSeek), k);
    case Player(ok) =>
      PlayerKeepsKept(g, s, ok, k);
  }

  lemma SameKept(g: Setting, s: Sys, t: Sys, k: Kind)
    requires Kept(g, s, k)
    requires t.log.written == s.log.written && t.log.taken == s.log.taken && t.log.flushed == s.log.flushed
    requires t.port == s.port && (s.player in {Demux, Failed} ==> t.player in {Demux, Failed})
    ensures Kept(g, t, k)
  {
    hide OfKind, Queue;
  }

  lemma TakeKeepsKept(g: Setting, s: Sys, kind: Kind, k: Kind)
    requires Kept(g, s, k) && Enabled(s, Take(kind))
    ensures Kept(g, Apply(g, s, Take(kind)), k)
  {
    hide OfKind;
    if kind == k {
      TakenInOrder(Queue(s.log.taken, k), Queue(s.port, k));
    }
  }

  lemma PlayerKeepsKept(g: Setting, s: Sys, ok: bool, k: Kind)
    requires Clean(s) && Kept(g, s, k) && Enabled(s, Player(ok))
    ensures Kept(g, Apply(g, s, Player(ok)), k)
  {
    hide AllOfEpoch, OfKind, Kept, Queue;
    if s.player.Stop? {
      StopKeepsKept(g, s, k);
    } else if s.player.Demux? && ok {
      NewLogIsKept(g, PlayerStep(s, true), k);
    } else {
      SameKept(g, s, PlayerStep(s, ok), k);
    }
  }

  lemma NewLogIsKept(g: Setting, s: Sys, k: Kind)
    requires s.log == NoLog(true) && s.port == EMPTY_PORT
    ensures Kept(g, s, k)
  {
    NothingOfKind(k);
  }

  lemma StopKeepsKept(g: Setting, s: Sys, k: Kind)
    requires Kept(g, s, k) && s.player.Stop?
    ensures Kept(g, PlayerStep(s, true), k) && Kept(g, PlayerStep(s, false), k)
  {
    hide OfKind;
    Flushed(Queue(s.log.taken, k), Queue(s.port, k));
  }

  lemma NothingOfKind(k: Kind)
    ensures OfKind(k, []) == [] == Queue(EMPTY_PORT, k) + Queue(EMPTY_PORT, k) + Queue(EMPTY_PORT, k)
  {
  }

  lemma TakenInOrder(taken: seq<Packet>, q: seq<Packet>)
    requires q != []
    ensures taken + [q[0]] + [] + q[1..] == taken + [] + q
  {
  }

  lemma Flushed(taken: seq<Packet>, q: seq<Packet>)
    ensures taken + ([] + q) + [] == taken + [] + q
  {
  }

  lemma WriteKeepsKept(g: Setting, s: Sys, k: Kind)
    requires Protocol(s) && Kept(g, s, k) && s.io.WritePacket? && s.pending.Some? && Accepts(g, s.port, s.pending.value)
    requires s.player !in {Demux, Failed}
    ensures Kept(g, IoStep(g, s, Again), k)
  {
    hide OfKind, GateOpen, HasRoom, Protocol;
    var pkt := s.pending.value;
    OfKindGrows(k, s.log.written, pkt);
    var queued := if pkt.kind == k && !(k.Subtitle? && !g.hasSub) then [pkt] else [];
    assert Queue(Written(g, s.port, pkt), k) == Queue(s.port, k) + queued;
  }

  // --------------------------------------------------------------------- runs

  ghost predicate Run(g: Setting, states: seq<Sys>, steps: seq<Step>) {
    && |states| == |steps| + 1
    && Initial(states[0])
    && forall i :: 0 <= i < |steps| ==> Enabled(states[i], steps[i]) && states[i + 1] == Apply(g, states[i], steps[i])
  }

  lemma StepKeepsInv(g: Setting, s: Sys, step: Step)
    requires Inv(g, s) && Enabled(s, step)
    ensures Inv(g, Apply(g, s, step))
  {
    hide Protocol, Clean, Filtered, Flow, Kept, Apply;
    ProtocolKept(g, s, step);
    CleanKept(g, s, step);
    FilteredKept(g, s, step);
    FlowKept(g, s, step);
    KeptKept(g, s, step, Video);
    KeptKept(g, s, step, Audio);
    KeptKept(g, s, step, Subtitle);
    KeptKept(g, s, step, Other);
  }

  lemma {:induction false} RunKeepsInv(g: Setting, states: seq<Sys>, steps: seq<Step>, i: nat)
    requires Run(g, states, steps) && i < |states|
    ensures Inv(g, states[i])
  {
    if i > 0 {
      RunKeepsInv(g, states, steps, i - 1);
      StepKeepsInv(g, states[i - 1], steps[i - 1]);
    }
  }

  /** A seek that hangs: the stream ends, and the I/O thread is gone, between the
      seek's look at the status and its raising the flag. */
  lemma HangingSeekRun(g: Setting, s: Sys)
    requires Initial(s)
    ensures var s1 := Apply(g, Apply(g, s, Player(true)), Io(Again));
            var s2 := Apply(g, Apply(g, Apply(g, s1, BeginSeek), Io(Eof)), Io(Again));
            var s3 := Apply(g, s2, Player(true));
            && Enabled(s, Player(true)) && Enabled(Apply(g, s, Player(true)), Io(Again))
            && Enabled(s1, BeginSeek) && Enabled(Apply(g, s1, BeginSeek), Io(Eof))
            && Enabled(Apply(g, Apply(g, s1, BeginSeek), Io(Eof)), Io(Again)) && Enabled(s2, Player(true))
            && s3.player.Await? && s3.io.Dead? && s3.status.Quit?
  {
  }

  /** From then on the seek waits in every run. */
  lemma {:induction false} HangingSeekStaysHung(g: Setting, states: seq<Sys>, steps: seq<Step>, i: nat, j: nat)
    requires Run(g, states, steps) && i <= j < |states|
    requires states[i].player.Await? && states[i].io.Dead?
    ensures states[j].player.Await? && states[j].io.Dead? && states[j].log.read == states[i].log.read
  {
    hide Apply, Inv, Initial;
    if i < j {
      HangingSeekStaysHung(g, states, steps, i, j - 1);
      RunKeepsInv(g, states, steps, j - 1);
      HungStep(g, states[j - 1], steps[j - 1]);
    }
  }

  lemma HungStep(g: Setting, s: Sys, step: Step)
    requires Inv(g, s) && Enabled(s, step) && s.player.Await? && s.io.Dead?
    ensures var t := Apply(g, s, step);
            t.player.Await? && t.io.Dead? && t.log.read == s.log.read
  {
    hide Clean, Filtered, Flow, Kept;
  }

  /** Seek cleanliness, for every run: a packet that enters a port queue was read
      since the demuxer was last positioned, and after a seek the first one is a
      video key frame. */
  lemma SeekIsClean(g: Setting, states: seq<Sys>, steps: seq<Step>, i: nat)
    requires Run(g, states, steps) && i < |steps|
    requires steps[i].Io? && states[i].io.WritePacket? && states[i].pending.Some?
    ensures var pkt := states[i].pending.value;
            && pkt.epoch == states[i].epoch
            && (states[i].epoch > 0 && states[i].log.written == [] ==> IsKey(pkt))
  {
    RunKeepsInv(g, states, steps, i);
    var s := states[i];
    FromKeyStarts(Tested(s));
    if s.log.written == [] {
      assert s.log.lost == [];
      assert s.log.accepted == [] + [] + [s.pending.value];
    }
  }

  /** And so no queue holds a packet from before, at any time. */
  lemma QueuesHoldNothingOld(g: Setting, states: seq<Sys>, steps: seq<Step>, i: nat)
    requires Run(g, states, steps) && i < |states|
    ensures var port, epoch := states[i].port, states[i].epoch;
            && (forall n :: 0 <= n < |port.audio| ==> port.audio[n].epoch == epoch)
            && (forall n :: 0 <= n < |port.video| ==> port.video[n].epoch == epoch)
            && (forall n :: 0 <= n < |port.sub| ==> port.sub[n].epoch == epoch)
  {
    RunKeepsInv(g, states, steps, i);
  }

  /** The key frame filter, for every run: after a seek the packets accepted are
      those read from the first video key frame on, without a gap. */
  lemma AcceptedFromKeyOn(g: Setting, states: seq<Sys>, steps: seq<Step>, i: nat)
    requires Run(g, states, steps) && i < |states|
    ensures var s := states[i];
            && (s.epoch > 0 ==> s.log.accepted == FromKey(Tested(s)))
            && (s.epoch == 0 && !states[0].waitKey ==> s.log.accepted == Tested(s))
  {
    RunKeepsInv(g, states, steps, i);
    FirstEpochKeepsFilter(g, states, steps, i);
  }

  lemma {:induction false} FirstEpochKeepsFilter(g: Setting, states: seq<Sys>, steps: seq<Step>, i: nat)
    requires Run(g, states, steps) && i < |states|
    ensures states[i].epoch == 0 ==> states[i].log.filter == states[0].waitKey
  {
    hide Apply, Enabled;
    if i > 0 {
      FirstEpochKeepsFilter(g, states, steps, i - 1);
      EpochKeepsFilter(g, states[i - 1], steps[i - 1]);
    }
  }

  lemma EpochKeepsFilter(g: Setting, s: Sys, step: Step)
    ensures var t := Apply(g, s, step);
            t.epoch > 0 || (s.epoch == 0 && t.log.filter == s.log.filter)
  {
    hide Accepts, Written;
  }

  lemma {:induction false} NoKeyNothingFrom(q: seq<Packet>)
    ensures FromKey(q) == [] <==> forall i :: 0 <= i < |q| ==> !IsKey(q[i])
    decreases |q|
  {
    if q != [] && !IsKey(q[0]) {
      NoKeyNothingFrom(q[1..]);
      assert forall i :: 0 < i < |q| ==> q[i] == q[1..][i - 1];
    }
  }

  /** After a seek, nothing gets through until the demuxer has handed over a video
      key frame; on a stream without any, nothing ever does. */
  lemma NoKeyNothingPasses(g: Setting, states: seq<Sys>, steps: seq<Step>, i: nat)
    requires Run(g, states, steps) && i < |states| && states[i].epoch > 0
    requires forall n :: 0 <= n < |states[i].log.read| ==> !IsKey(states[i].log.read[n])
    ensures var s := states[i];
            && s.log.accepted == [] && s.log.written == []
            && s.port == EMPTY_PORT && s.log.taken == EMPTY_PORT
  {
    hide FromKey, Kept;
    var s := states[i];
    RunKeepsInv(g, states, steps, i);
    NoKeyNothingFrom(Tested(s));
    assert s.log.written == [];
    NothingWrittenNothingHeld(g, s);
  }

  lemma NothingWrittenNothingHeld(g: Setting, s: Sys)
    requires Kept(g, s, Video) && Kept(g, s, Audio) && Kept(g, s, Subtitle) && s.log.written == []
    ensures s.port == EMPTY_PORT && s.log.taken == EMPTY_PORT
  {
    hide OfKind;
    NothingOfKind(Video);
    NothingOfKind(Audio);
    NothingOfKind(Subtitle);
    assert forall k :: k in {Video, Audio, Subtitle} ==> Queue(s.port, k) == [] == Queue(s.log.taken, k);
  }

  /** Conservation, for every run: of each kind, the packets accepted since the
      demuxer was last positioned are those taken, flushed with a stopped port,
      queued, lost to the pause (one at most, of all kinds together) and in hand,
      in this order.  While no seek is under way nothing is flushed or lost.  Two
      kinds end elsewhere: subtitles without a subtitle track reach no queue, and
      packets of no known kind are not written at all. */
  lemma NothingLostOrDoubled(g: Setting, states: seq<Sys>, steps: seq<Step>, i: nat, k: Kind)
    requires Run(g, states, steps) && i < |states|
    ensures var s := states[i];
            var kept := Queue(s.log.taken, k) + Queue(s.log.flushed, k) + Queue(s.port, k);
            && (if k.Subtitle? && !g.hasSub then kept == []
                else OfKind(k, s.log.accepted) == kept + OfKind(k, s.log.lost) + OfKind(k, InHand(s)))
            && |s.log.lost| <= 1
            && (s.player in {Playing, Raise} ==> Queue(s.log.flushed, k) == [] && s.log.lost == [])
  {
    RunKeepsInv(g, states, steps, i);
    InvAccounts(g, states[i], k);
  }

  lemma InvAccounts(g: Setting, s: Sys, k: Kind)
    requires Inv(g, s)
    ensures var kept := Queue(s.log.taken, k) + Queue(s.log.flushed, k) + Queue(s.port, k);
            if k.Subtitle? && !g.hasSub then kept == []
            else OfKind(k, s.log.accepted) == kept + OfKind(k, s.log.lost) + OfKind(k, InHand(s))
    ensures |s.log.lost| <= 1
    ensures s.player in {Playing, Raise} ==> Queue(s.log.flushed, k) == [] && s.log.lost == []
  {
    hide OfKind, Queue, InHand, Protocol, Clean, Filtered;
    assert Kept(g, s, k) && Flow(s);
    OfKindJoins(k, s.log.written, s.log.lost);
    OfKindJoins(k, s.log.written + s.log.lost, InHand(s));
  }

  // ---------------------------------------------------------------- progress

  /** A packet's way through the I/O thread, from one loop head to the next.  A
      packet that waits for a key frame in vain is dropped; one that the host takes
      is behind all others of its kind; one that it does not take is kept for the
      next turn.  The host takes audio and video while audio has packets or video
      has packets to spare and the packet's own queue has not reached its size. */
  lemma PacketPasses(g: Setting, s: Sys, kind: Kind, key: bool, size: nat)
    requires Protocol(s) && s.io.Head? && s.status.Running? && !s.flag && s.pending.None?
    ensures var pkt := Packet(kind, key, size, s.epoch);
            var s3 := IoStep(g, IoStep(g, IoStep(g, s, Again), Got(kind, key, size)), Again);
            var t := IoStep(g, s3, Again);
            var spare := (g.hasAudio && |s.port.audio| < g.audioMaxNum) || (g.hasVideo && |s.port.video| < g.videoMaxSize);
            if s.waitKey && !(kind == Video && key) then s3 == s.(log := s3.log)
            else
              && !t.waitKey && t.io.Head?
              && (kind == Subtitle && !g.hasSub ==> t.pending.None? && t.port == s.port)
              && (kind == Other ==> t.pending == Some(pkt) && t.port == s.port)
              && (kind == Video ==>
                    if spare && Size(s.port.video) < g.videoMaxSize
                    then t.pending.None? && t.port == s.port.(video := s.port.video + [pkt])
                    else t.pending == Some(pkt) && t.port == s.port)
              && (kind == Audio ==>
                    if spare && Size(s.port.audio) < g.audioMaxSize
                    then t.pending.None? && t.port == s.port.(audio := s.port.audio + [pkt])
                    else t.pending == Some(pkt) && t.port == s.port)
              && (kind == Subtitle && g.hasSub ==>
                    if spare then t.pending.None? && t.port == s.port.(sub := s.port.sub + [pkt])
                    else t.pending == Some(pkt) && t.port == s.port)
  {
    hide Size;
  }

  /** A packet not taken is offered again, before anything else is read. */
  lemma RefusedIsRetried(g: Setting, s: Sys, reading: Reading)
    requires Protocol(s) && s.io.Head? && s.status.Running? && !s.flag && s.pending.Some?
    ensures IoStep(g, s, reading) == s.(io := WritePacket)
  {
  }

  /** A consumer gets the oldest packet of its kind. */
  lemma TakeTakesOldest(g: Setting, s: Sys, k: Kind)
    requires Enabled(s, Take(k))
    ensures var t := Apply(g, s, Take(k));
            && Queue(t.log.taken, k) == Queue(s.log.taken, k) + [Queue(s.port, k)[0]]
            && Queue(t.port, k) == Queue(s.port, k)[1..]
            && forall other :: other != k ==> Queue(t.port, other) == Queue(s.port, other)
  {
  }

  /** The seek of a live thread, access by access: the thread lets go of its packet,
      the queues are emptied, and reading starts over, for a key frame. */
  lemma SeekCompletes(g: Setting, s: Sys)
    requires Protocol(s) && s.player.Playing? && s.status.Running? && s.io.Head?
    ensures var paused := IoStep(g, PlayerStep(Apply(g, s, BeginSeek), true), Again);
            var emptied := PlayerStep(PlayerStep(PlayerStep(paused, true), true), true);
            && paused.status.Paused? && paused.pending.None?
            && emptied.port == EMPTY_PORT && !emptied.flag && emptied.player.Demux?
            && PlayerStep(emptied, false).player.Failed?
            && Restarted(g, PlayerStep(emptied, true))
               == Sys(Running, false, Head, None, true, EMPTY_PORT, Playing, s.epoch + 1, NoLog(true))
  {
  }

  /** What follows the positioning of the demuxer, up to the end of the seek. */
  function Restarted(g: Setting, s: Sys): Sys {
    PlayerStep(PlayerStep(PlayerStep(PlayerStep(PlayerStep(s, true), true), true), true), true)
  }

  /** The seek of a thread that is gone ends with a new one. */
  lemma SeekRevives(g: Setting, s: Sys)
    requires Protocol(s) && s.player.Playing? && s.status.Quit? && s.io.Dead?
    ensures var emptied := PlayerStep(Apply(g, s, BeginSeek), true);
            && emptied.port == EMPTY_PORT && emptied.player.Demux?
            && Restarted(g, PlayerStep(emptied, true))
               == Sys(Running, false, Head, None, true, EMPTY_PORT, Playing, s.epoch + 1, NoLog(true))
  {
  }

  /** At the end of the stream the thread leaves with its next two accesses. */
  lemma EndOfStreamQuits(g: Setting, s: Sys)
    requires s.io.ReadPacket? && !s.flag
    ensures IoStep(g, IoStep(g, s, Eof), Again) == s.(status := Quit, io := Dead)
  {
  }

  // --------------------------------------------------------------- accounting

  /** A queue went over its limit with its last packet, if at all. */
  predicate Bounded(q: seq<Packet>, max: nat) {
    q == [] || Size(q[..|q| - 1]) < max
  }

  lemma {:induction false} SizeWithoutFirst(q: seq<Packet>)
    requires q != []
    ensures Size(q) == q[0].size + Size(q[1..])
    decreases |q|
  {
    if |q| > 1 {
      SizeWithoutFirst(q[..|q| - 1]);
      assert q[..|q| - 1][1..] == q[1..][..|q[1..]| - 1];
    }
  }

  lemma BoundedTail(q: seq<Packet>, max: nat)
    requires q != [] && Bounded(q, max)
    ensures Bounded(q[1..], max)
  {
    if |q| > 1 {
      SizeWithoutFirst(q[..|q| - 1]);
      assert q[..|q| - 1][1..] == q[1..][..|q[1..]| - 1];
    }
  }

  lemma BoundedGrows(q: seq<Packet>, max: nat)
    ensures Bounded([], max)
    ensures Size(q) < max ==> forall pkt :: Bounded(q + [pkt], max)
  {
    forall pkt | Size(q) < max ensures Bounded(q + [pkt], max) {
      assert (q + [pkt])[..|q|] == q;
    }
  }

  lemma BoundedKept(g: Setting, s: Sys, step: Step)
    requires Enabled(s, step)
    requires Bounded(s.port.video, g.videoMaxSize) && Bounded(s.port.audio, g.audioMaxSize)
    ensures var t := Apply(g, s, step);
            Bounded(t.port.video, g.videoMaxSize) && Bounded(t.port.audio, g.audioMaxSize)
  {
    hide Bounded;
    assert Bounded([], g.videoMaxSize) && Bounded([], g.audioMaxSize) by {
      BoundedGrows([], g.videoMaxSize);
      BoundedGrows([], g.audioMaxSize);
    }
    if step.Take? {
      if s.port.video != [] {
        BoundedTail(s.port.video, g.videoMaxSize);
      }
      if s.port.audio != [] {
        BoundedTail(s.port.audio, g.audioMaxSize);
      }
    } else if step.Io? && s.io.WritePacket? && s.pending.Some? {
      BoundedGrows(s.port.video, g.videoMaxSize);
      BoundedGrows(s.port.audio, g.audioMaxSize);
    }
  }

  /** In every reachable state the video and the audio queue hold less than their
      limit plus the packet last put in. */
  lemma {:induction false} QueuesStayBounded(g: Setting, states: seq<Sys>, steps: seq<Step>, i: nat)
    requires Run(g, states, steps) && i < |states|
    ensures Bounded(states[i].port.video, g.videoMaxSize) && Bounded(states[i].port.audio, g.audioMaxSize)
  {
    if i > 0 {
      QueuesStayBounded(g, states, steps, i - 1);
      BoundedKept(g, states[i - 1], steps[i - 1]);
    }
  }
}
