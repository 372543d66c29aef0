/**
 The reassembly object of one elementary stream: header bytes and payload are
 collected in place while a loop consumes the transport payload.
 */
module PesStream {
  import opened Common
  import opened Circular
  import opened Timestamps
  import opened Pes

  lemma TurnByPhase(s: State, rest: seq<Byte>)
    requires Wf(s) && !s.phase.Invalid? && rest != []
    ensures Turn(s, rest) ==
      match s.phase
      case Header => Pes.TurnStart(s, rest)
      case PesHeader => Pes.TurnFlags(s, rest)
      case PesHeaderFill => Pes.TurnFill(s, rest)
      case Payload => (Pes.TurnPayload(s, rest), [])
      case Skip => (s, [])
  {
  }

  lemma CollectIsPatch(s: State, input: seq<Byte>, at: nat, limit: nat, len: nat)
    requires |s.header| == MAX_PES_HEADER_SIZE && at <= |input| && s.dataIndex <= limit <= MAX_PES_HEADER_SIZE
    requires len == if limit - s.dataIndex > |input| - at then |input| - at else limit - s.dataIndex
    ensures var (t, rest) := Pes.Collect(s, input[at..], limit);
            && t.header == Patch(s.header, s.dataIndex, input[at..at + len])
            && t.dataIndex == s.dataIndex + len && rest == input[at + len..]
  {
    assert input[at..][..len] == input[at..at + len] && input[at..][len..] == input[at + len..];
  }

  lemma PayloadIsBody(s: State)
    requires Wf(s) && s.phase.Payload?
    ensures s.dataIndex == |s.body| <= s.totalSize && s.hasBuffer
  {
  }

  lemma AppendIsTurn(s: State, rest: seq<Byte>, len: nat, room: nat)
    requires Wf(s) && s.phase.Payload? && len <= |rest|
    requires if s.dataIndex > 0 && s.dataIndex + |rest| > s.totalSize then len == |rest| && room == s.dataIndex + |rest|
             else room == s.totalSize && len == if s.dataIndex == 0 && |rest| > room then room else |rest|
    ensures var t := s.(body := s.body + rest[..len], dataIndex := s.dataIndex + len, totalSize := room);
            Wf(t) && t == Pes.TurnPayload(s, rest)
  {
    assert rest[..|rest|] == rest;
  }

  class Stream {
    var phase: Phase
    var dataIndex: nat
    const header: array<Byte>
    var headerSize: nat
    var totalSize: nat
    var buffer: array?<Byte>
    var pts: bv64
    var dts: bv64
    var extendedId: int
    var streamType: int

    ghost function View(): State
      reads this, header, buffer
    {
      State(phase, dataIndex, header[..], headerSize, totalSize, buffer != null,
            if phase.Payload? && buffer != null && dataIndex <= buffer.Length then buffer[..dataIndex] else [],
            pts, dts, extendedId, streamType)
    }

    ghost predicate Valid()
      reads this, header, buffer
    {
      && Wf(View())
      && header != buffer
      && (phase.Payload? ==> buffer != null && totalSize <= buffer.Length)
      && (phase in {PesHeader, PesHeaderFill} ==> buffer != null && buffer.Length == totalSize)
    }

    constructor (streamType: int)
      ensures Valid() && phase.Invalid? && this.streamType == streamType
    {
      phase, dataIndex, headerSize, totalSize := Invalid, 0, 0, 0;
      header := new Byte[MAX_PES_HEADER_SIZE];
      buffer := null;
      pts, dts, extendedId := 0, 0, 0;
      this.streamType := streamType;
    }

    /** Copy header bytes from `input[at..]` until `limit` of them are there. */
    method Collect(input: seq<Byte>, at: nat, limit: nat) returns (next: nat)
      requires header.Length == MAX_PES_HEADER_SIZE && at <= |input| && dataIndex <= limit <= MAX_PES_HEADER_SIZE
      modifies header, `dataIndex
      ensures header[..] == Pes.Collect(old(View()), input[at..], limit).0.header
      ensures dataIndex == Pes.Collect(old(View()), input[at..], limit).0.dataIndex
      ensures at <= next <= |input| && input[next..] == Pes.Collect(old(View()), input[at..], limit).1
    {
      var len := limit - dataIndex;
      if len > |input| - at {
        len := |input| - at;
      }
      CollectIsPatch(View(), input, at, limit, len);
      CopyHeader(input, at, len);
      dataIndex := dataIndex + len;
      next := at + len;
    }

    method CopyHeader(input: seq<Byte>, at: nat, len: nat)
      requires dataIndex + len <= header.Length && at + len <= |input|
      modifies header
      ensures header[..] == Patch(old(header[..]), dataIndex, input[at..at + len])
    {
      forall i | 0 <= i < len {
        header[dataIndex + i] := input[at + i];
      }
    }

    /** Make room for `size` more payload bytes: grow the buffer, or clip a first
        piece that is longer than the packet said. */
    method Reserve(size: nat) returns (len: nat)
      requires Valid() && phase.Payload?
      modifies `buffer, `totalSize
      ensures buffer != null && header != buffer && dataIndex + len <= totalSize <= buffer.Length
      ensures buffer == old(buffer) || fresh(buffer)
      ensures buffer[..dataIndex] == old(buffer[..dataIndex])
      ensures if dataIndex > 0 && dataIndex + size > old(totalSize) then len == size && totalSize == dataIndex + size
              else totalSize == old(totalSize) && len == if dataIndex == 0 && size > totalSize then totalSize else size
    {
      len := size;
      if dataIndex > 0 && dataIndex + size > totalSize {
        var grown := new Byte[totalSize + size];
        forall i | 0 <= i < dataIndex {
          grown[i] := buffer[i];
        }
        buffer := grown;
        totalSize := dataIndex + size;
      } else if dataIndex == 0 && size > totalSize {
        len := totalSize;
      }
    }

    method CopyPayload(input: seq<Byte>, at: nat, len: nat)
      requires buffer != null && dataIndex + len <= buffer.Length && at + len <= |input|
      modifies buffer
      ensures buffer[..dataIndex + len] == old(buffer[..dataIndex]) + input[at..][..len]
    {
      forall i | 0 <= i < len {
        buffer[dataIndex + i] := input[at + i];
      }
    }

    method Append(input: seq<Byte>, at: nat)
      requires Valid() && phase.Payload? && at < |input|
      modifies `buffer, `totalSize, `dataIndex, buffer
      ensures Valid() && (buffer == old(buffer) || fresh(buffer))
      ensures View() == Pes.TurnPayload(old(View()), input[at..])
    {
      hide Wf, Pes.TurnPayload;
      assert dataIndex == |View().body| by { PayloadIsBody(View()); }
      var len := Reserve(|input| - at);
      AppendIsTurn(old(View()), input[at..], len, totalSize);
      CopyPayload(input, at, len);
      dataIndex := dataIndex + len;
    }

    /** Act on a complete start code and length. */
    method Classify()
      requires header != buffer && phase.Header? && dataIndex == PES_START_SIZE && header.Length == MAX_PES_HEADER_SIZE
      modifies `totalSize, `buffer, `phase, `dataIndex
      ensures header != buffer && (buffer == old(buffer) || fresh(buffer))
      ensures phase in {PesHeader, Payload} ==> buffer != null && buffer.Length == totalSize
      ensures View() == Classified(old(View()))
    {
      hide StartCode, RoomOf, Headerless;
      if StartCode(header[..]) && header[3] != 0xbe {
        totalSize := RoomOf(header[..]);
        buffer := new Byte[totalSize];
        if Headerless(header[3]) {
          phase := Payload;
          dataIndex := 0;
        } else {
          phase := PesHeader;
        }
      } else {
        phase := Skip;
      }
      assert header[..] == old(header[..]);
    }

    /** Read times and extension out of a complete header. */
    method Complete()
      requires Valid() && phase.PesHeaderFill? && dataIndex == headerSize
      modifies this
      ensures Valid() && View() == Completed(old(View())) && buffer == old(buffer)
      ensures headerSize == old(headerSize) && streamType == old(streamType) && phase.Payload? && dataIndex == 0
    {
      hide ParsePts, ExtendedIdOf;
      pts, dts := NO_PTS, NO_PTS;
      if header[7] & 0xc0 == 0x80 {
        pts := ParsePts(header[9..14]);
        dts := pts;
      } else if header[7] & 0xc0 == 0xc0 {
        pts := ParsePts(header[9..14]);
        dts := ParsePts(header[14..19]);
      }
      extendedId := ExtendedIdOf(header[..], headerSize);
      phase := Payload;
      dataIndex := 0;
    }

    method TurnStart(input: seq<Byte>, at: nat) returns (next: nat)
      requires Valid() && phase.Header? && at < |input|
      modifies this, header
      ensures Valid() && !phase.Invalid? && (buffer == old(buffer) || fresh(buffer))
      ensures next <= |input| && (View(), input[next..]) == Pes.TurnStart(old(View()), input[at..])
    {
      hide StartCode, RoomOf, Headerless;
      next := Collect(input, at, PES_START_SIZE);
      if dataIndex == PES_START_SIZE {
        Classify();
      }
    }

    method TurnFlags(input: seq<Byte>, at: nat) returns (next: nat)
      requires Valid() && phase.PesHeader? && at < |input|
      modifies this, header
      ensures Valid() && phase in {PesHeader, PesHeaderFill} && buffer == old(buffer)
      ensures next <= |input| && (View(), input[next..]) == Pes.TurnFlags(old(View()), input[at..])
    {
      next := Collect(input, at, PES_HEADER_SIZE);
      if dataIndex == PES_HEADER_SIZE {
        headerSize := header[8] as nat + 9;
        phase := PesHeaderFill;
      }
    }

    method TurnFill(input: seq<Byte>, at: nat) returns (next: nat)
      requires Valid() && phase.PesHeaderFill? && at < |input|
      modifies this, header
      ensures Valid() && !phase.Invalid? && buffer == old(buffer)
      ensures next <= |input| && (View(), input[next..]) == Pes.TurnFill(old(View()), input[at..])
    {
      hide Completed, Pes.Collect;
      next := Collect(input, at, headerSize);
      if dataIndex == headerSize {
        Complete();
        if streamType == 0x15 && |input| - next >= 5 {
          headerSize := headerSize + 5;
          next := next + 5;
        }
      }
    }

    /** `handle_ts_pkt`: take in one transport payload; a start unit hands out the
        frame that was under way. */
    method Handle(unitStart: bool, payload: seq<Byte>) returns (frame: Option<Frame>)
      requires Valid()
      modifies this, header, buffer
      ensures Valid() && (buffer == old(buffer) || buffer == null || fresh(buffer))
      ensures (frame, View()) == Pes.Handle(old(View()), unitStart, payload)
    {
      frame := None;
      if !unitStart && phase.Invalid? {
        return;
      }
      hide Wf, Absorb;
      if unitStart {
        if phase.Payload? && dataIndex > 0 {
          frame := Some(Frame(buffer[..dataIndex], pts, dts));
        }
        Begin();
      }
      AbsorbAll(payload);
    }

    method Begin()
      requires Valid()
      modifies `pts, `dts, `buffer, `phase, `dataIndex
      ensures Valid() && buffer == null && phase.Header? && View() == Pes.Begin(old(View()))
    {
      pts, dts := NO_PTS, NO_PTS;
      buffer := null;
      phase := Header;
      dataIndex := 0;
    }

    method AbsorbAll(payload: seq<Byte>)
      requires Valid() && !phase.Invalid?
      modifies this, header, buffer
      ensures Valid() && (buffer == old(buffer) || fresh(buffer))
      ensures View() == Absorb(old(View()), payload)
    {
      hide Turn, Wf, Pes.TurnStart, Pes.TurnFlags, Pes.TurnFill, Pes.TurnPayload;
      ghost var start := View();
      var at := 0;
      assert payload[0..] == payload;
      while at < |payload|
        invariant at <= |payload|
        invariant Valid() && !phase.Invalid? && (buffer == old(buffer) || fresh(buffer))
        invariant Absorb(View(), payload[at..]) == Absorb(start, payload)
        decreases |payload| - at, Rank(phase)
      {
        TurnByPhase(View(), payload[at..]);
        match phase {
          case Header => at := TurnStart(payload, at);
          case PesHeader => at := TurnFlags(payload, at);
          case PesHeaderFill => at := TurnFill(payload, at);
          case Payload =>
            Append(payload, at);
            at := |payload|;
          case Skip => at := |payload|;
        }
      }
    }
  }
}
