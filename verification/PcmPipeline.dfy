/**
 Decoded PCM on its way to the device: the decoder thread refills the byte
 buffer from the chunk in hand, as much as fits at a time; the output thread
 fetches a unit into its staging buffer and offers it to the device, which may
 take less than it is offered.

 A step is one pass of either thread through its loop; the latency test that may
 make the decoder thread wait a pass changes nothing and is no step.
 */
module PcmPipeline {
  import opened Common
  import opened Circular
  import ByteFifo
  import DtBuffer

  datatype Pcm = Pcm(
    ring: ByteFifo.Fifo,
    chunk: seq<Byte>,       // what the decoder wrote last
    fillSize: nat,          // of it already in the ring
    outlen: nat,            // of it still to go
    unitSize: nat,
    staging: seq<Byte>,     // fetched and not yet accepted by the device
    device: seq<Byte>,      // accepted by the device
    kept: seq<Byte>         // all PCM decoded and not discarded by the drop phase
  )

  datatype Step =
    | Decode(pcm: seq<Byte>, discard: bool)
    | Refill
    | Fetch
    | Play(accepted: int)    // what the device's write returns

  predicate Enabled(s: Pcm, step: Step) {
    match step
    case Decode(_, _) => s.outlen == 0
    case Refill => s.outlen > 0
    case Fetch => s.staging == []
    case Play(accepted) => s.staging != [] && accepted <= |s.staging|
  }

  predicate Inv(s: Pcm) {
    && ByteFifo.Valid(s.ring)
    && s.fillSize + s.outlen == |s.chunk|
    && |s.staging| <= s.unitSize
    && s.device + s.staging + ByteFifo.Contents(s.ring) + s.chunk[s.fillSize..] == s.kept
  }

  function Apply(s: Pcm, step: Step): Pcm
    requires Inv(s) && Enabled(s, step)
  {
    match step
    case Decode(pcm, discard) =>
      if discard then s.(chunk := [], fillSize := 0)
      else s.(chunk := pcm, fillSize := 0, outlen := |pcm|, kept := s.kept + pcm)
    case Refill =>
      var (ring, ret) := ByteFifo.Put(s.ring, s.chunk[s.fillSize..]);
      s.(ring := ring, fillSize := s.fillSize + ret, outlen := if ret <= s.outlen then s.outlen - ret else 0)
    case Fetch =>
      var (ring, out) := ByteFifo.Get(s.ring, s.unitSize);
      s.(ring := ring, staging := out)
    case Play(accepted) =>
      if accepted <= 0 then s
      else s.(device := s.device + s.staging[..accepted], staging := s.staging[accepted..])
  }

  /** Conservation: what the device has, what is staged, what is in the ring and
      what is still to be refilled are all the PCM kept, in order. */
  lemma StepConserves(s: Pcm, step: Step)
    requires Inv(s) && Enabled(s, step)
    ensures Inv(Apply(s, step))
  {
    hide ByteFifo.Valid, ByteFifo.Contents, ByteFifo.Put, ByteFifo.Get;
    var held, rest := ByteFifo.Contents(s.ring), s.chunk[s.fillSize..];
    match step
    case Decode(pcm, discard) =>
      DecodeMoves(s.device + s.staging + held, rest, pcm);
    case Refill =>
      RefillConserves(s);
    case Fetch =>
      FetchConserves(s);
    case Play(accepted) =>
      if accepted > 0 {
        Regroup([], s.device, s.staging[..accepted], s.staging[accepted..], s.staging);
      }
  }

  lemma RefillConserves(s: Pcm)
    requires Inv(s) && Enabled(s, Refill)
    ensures Inv(Apply(s, Refill))
  {
    hide ByteFifo.Valid, ByteFifo.Contents, ByteFifo.Put;
    var rest := s.chunk[s.fillSize..];
    ByteFifo.PutAppends(s.ring, rest);
    var ret := ByteFifo.Put(s.ring, rest).1;
    assert s.chunk[s.fillSize + ret..] == rest[ret..];
    Regroup(s.device + s.staging, ByteFifo.Contents(s.ring), rest[..ret], rest[ret..], rest);
  }

  lemma FetchConserves(s: Pcm)
    requires Inv(s) && Enabled(s, Fetch)
    ensures Inv(Apply(s, Fetch))
  {
    hide ByteFifo.Valid, ByteFifo.Contents, ByteFifo.Get;
    ByteFifo.GetTakesFirst(s.ring, s.unitSize);
    var (ring, out) := ByteFifo.Get(s.ring, s.unitSize);
    Regroup(s.device, [], out, ByteFifo.Contents(ring), ByteFifo.Contents(s.ring));
  }

  /** What each pass moves: a refill as many bytes of the chunk as there are or fit,
      a fetch a unit or what the ring has of one, a device write what the device
      takes.  Nothing else changes. */
  lemma StepMoves(s: Pcm, step: Step)
    requires Inv(s) && Enabled(s, step)
    ensures var t := Apply(s, step);
            var held, rest := ByteFifo.Contents(s.ring), s.chunk[s.fillSize..];
            && Inv(t) && |t.ring.data| == |s.ring.data| && t.unitSize == s.unitSize
            && var heldAfter, restAfter := ByteFifo.Contents(t.ring), t.chunk[t.fillSize..];
               match step
               case Decode(pcm, discard) =>
                 && restAfter == (if discard then [] else pcm) && t.kept == s.kept + restAfter
                 && t.device == s.device && t.staging == s.staging && heldAfter == held
               case Refill =>
                 var n := Min(|s.ring.data| - |held|, s.outlen);
                 && heldAfter == held + rest[..n] && restAfter == rest[n..]
                 && t.device == s.device && t.staging == s.staging && t.kept == s.kept
               case Fetch =>
                 var n := Min(|held|, s.unitSize);
                 && t.staging == held[..n] && heldAfter == held[n..]
                 && t.device == s.device && restAfter == rest && t.kept == s.kept
               case Play(accepted) =>
                 var n := if accepted > 0 then accepted else 0;
                 && t.device == s.device + s.staging[..n] && t.staging == s.staging[n..]
                 && heldAfter == held && restAfter == rest && t.kept == s.kept
  {
    hide ByteFifo.Valid, ByteFifo.Put, ByteFifo.Get, Span;
    StepConserves(s, step);
    if step.Refill? {
      ByteFifo.PutAppends(s.ring, s.chunk[s.fillSize..]);
    } else if step.Fetch? {
      ByteFifo.GetTakesFirst(s.ring, s.unitSize);
    }
  }

  /** Moving the boundary between two neighbours moves no byte. */
  lemma Regroup(a: seq<Byte>, b: seq<Byte>, first: seq<Byte>, second: seq<Byte>, both: seq<Byte>)
    requires first + second == both
    ensures a + (b + first) + second == a + b + both
  {
  }

  lemma DecodeMoves(done: seq<Byte>, rest: seq<Byte>, pcm: seq<Byte>)
    requires rest == []
    ensures done + pcm[0..] == done + rest + pcm
    ensures done + [] == done + rest
  {
  }

  // --------------------------------------------------------------------- runs

  /** Each step of the schedule can be taken when its turn comes. */
  predicate Allowed(s: Pcm, steps: seq<Step>)
    requires Inv(s)
    decreases |steps|
  {
    steps == [] ||
    (&& Enabled(s, steps[0])
     && (StepConserves(s, steps[0]); Allowed(Apply(s, steps[0]), steps[1..])))
  }

  function After(s: Pcm, steps: seq<Step>): Pcm
    requires Inv(s) && Allowed(s, steps)
    decreases |steps|
  {
    if steps == [] then s
    else
      StepConserves(s, steps[0]);
      After(Apply(s, steps[0]), steps[1..])
  }

  /** What the schedule decodes and does not discard. */
  function KeptBy(steps: seq<Step>): seq<Byte> {
    if steps == [] then []
    else (if steps[0].Decode? && !steps[0].discard then steps[0].pcm else []) + KeptBy(steps[1..])
  }

  lemma {:induction false} RunConserves(s: Pcm, steps: seq<Step>)
    requires Inv(s) && Allowed(s, steps)
    ensures Inv(After(s, steps)) && After(s, steps).kept == s.kept + KeptBy(steps)
    decreases |steps|
  {
    hide Inv;
    if steps == [] {
      assert s.kept + [] == s.kept;
    } else {
      StepConserves(s, steps[0]);
      var t := Apply(s, steps[0]);
      RunConserves(t, steps[1..]);
      KeptGrows(s.kept, steps);
    }
  }

  lemma KeptGrows(kept: seq<Byte>, steps: seq<Step>)
    requires steps != []
    ensures kept + KeptBy(steps) ==
      (if steps[0].Decode? && !steps[0].discard then kept + steps[0].pcm else kept) + KeptBy(steps[1..])
  {
    var part := if steps[0].Decode? && !steps[0].discard then steps[0].pcm else [];
    assert kept + (part + KeptBy(steps[1..])) == (kept + part) + KeptBy(steps[1..]);
    assert kept + [] == kept;
  }

  /** End to end, for every interleaving from an empty pipeline: the device has
      received a prefix of the PCM kept, and the rest is on its way in order. */
  lemma DeviceHearsThePcm(s: Pcm, steps: seq<Step>)
    requires Inv(s) && s.kept == [] && Allowed(s, steps)
    ensures var t := After(s, steps);
            && Inv(t)
            && KeptBy(steps) == t.device + t.staging + ByteFifo.Contents(t.ring) + t.chunk[t.fillSize..]
            && t.device <= KeptBy(steps)
  {
    hide ByteFifo.Valid, ByteFifo.Contents, Apply, After, Allowed;
    RunConserves(s, steps);
    var t := After(s, steps);
    assert s.kept + KeptBy(steps) == KeptBy(steps);
    PrefixOfSum(t.device, t.staging, ByteFifo.Contents(t.ring), t.chunk[t.fillSize..]);
  }

  lemma PrefixOfSum(a: seq<Byte>, b: seq<Byte>, c: seq<Byte>, d: seq<Byte>)
    ensures a <= a + b + c + d
  {
  }

  /** The pipeline in place: the buffer object, the staging array and the cursors
      of the two threads. */
  class Pipeline {
    const ring: DtBuffer.Buffer
    const staging: array<Byte>
    var chunk: seq<Byte>
    var fillSize: nat
    var outlen: nat
    var rlen: nat
    ghost var device: seq<Byte>
    ghost var kept: seq<Byte>

    ghost function View(): Pcm
      reads this, ring, ring.data, staging
    {
      Pcm(ring.View(), chunk, fillSize, outlen, staging.Length,
          if rlen <= staging.Length then staging[..rlen] else [], device, kept)
    }

    ghost predicate Valid()
      reads this, ring, ring.data, staging
    {
      rlen <= staging.Length && staging != ring.data && Inv(View())
    }

    constructor (ringSize: nat, unitSize: nat)
      ensures Valid() && kept == [] && device == [] && fresh(ring) && fresh(ring.data) && fresh(staging)
    {
      ring := new DtBuffer.Buffer(ringSize);
      staging := new Byte[unitSize];
      chunk, fillSize, outlen, rlen := [], 0, 0, 0;
      device, kept := [], [];
      new;
      assert staging[..0] == [];
    }

    /** A decoded chunk, or nothing of it when the drop phase discards it. */
    method Decode(pcm: seq<Byte>, discard: bool)
      requires Valid() && outlen == 0
      modifies this
      ensures Valid() && View() == Apply(old(View()), Step.Decode(pcm, discard))
      ensures kept == old(kept) + (if discard then [] else pcm)
    {
      StepConserves(View(), Step.Decode(pcm, discard));
      fillSize := 0;
      if discard {
        chunk := [];
      } else {
        chunk, outlen := pcm, |pcm|;
        kept := kept + pcm;
      }
    }

    /** One pass of the refill loop. */
    method Refill()
      requires Valid() && outlen > 0
      modifies this, ring, ring.data
      ensures Valid() && View() == Apply(old(View()), Step.Refill)
      ensures var n := Min(ring.data.Length - |old(ring.Contents())|, old(outlen));
              ring.Contents() == old(ring.Contents()) + old(chunk[fillSize..])[..n] && outlen == old(outlen) - n
    {
      hide ByteFifo.Put, Span, Gap;
      StepMoves(View(), Step.Refill);
      ByteFifo.PutAppends(ring.View(), chunk[fillSize..]);
      var ret := ring.PutRaw(chunk[fillSize..]);
      fillSize := fillSize + ret;
      outlen := outlen - ret;
    }

    /** The output thread reads a unit when its staging buffer is empty. */
    method Fetch()
      requires Valid() && rlen == 0
      modifies this, ring, ring.data, staging
      ensures Valid() && View() == Apply(old(View()), Step.Fetch)
      ensures rlen == Min(|old(ring.Contents())|, staging.Length)
      ensures staging[..rlen] + ring.Contents() == old(ring.Contents())
    {
      assert staging[..0] == [];
      StepConserves(View(), Step.Fetch);
      ByteFifo.GetTakesFirst(ring.View(), staging.Length);
      var before := ring.level;
      ring.GetRaw(staging, staging.Length);
      rlen := before - ring.level;
    }

    /** The device takes `wlen` bytes; what it left moves to the front. */
    method Play(wlen: int)
      requires Valid() && rlen > 0 && wlen <= rlen
      modifies this, staging
      ensures Valid() && View() == Apply(old(View()), Step.Play(wlen))
      ensures device == old(device) + old(staging[..rlen])[..if wlen > 0 then wlen else 0]
    {
      hide Inv, ByteFifo.Valid, ByteFifo.Contents;
      ghost var before := View();
      StepConserves(before, Step.Play(wlen));
      if wlen <= 0 {
        return;
      }
      assert staging[..wlen] == before.staging[..wlen];
      device := device + staging[..wlen];
      rlen := rlen - wlen;
      MoveDown(wlen);
      assert ring.View() == before.ring;
      assert before.staging[..wlen] + before.staging[wlen..] == before.staging;
      assert staging[..rlen] == before.staging[wlen..];
      assert View() == Apply(before, Step.Play(wlen));
    }

    /** `memmove` of the bytes the device left. */
    method MoveDown(gap: nat)
      requires rlen + gap <= staging.Length
      modifies staging
      ensures staging[..rlen] == old(staging[gap..gap + rlen])
    {
      forall i | 0 <= i < rlen {
        staging[i] := staging[i + gap];
      }
    }
  }
}
