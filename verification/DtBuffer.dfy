/** The byte buffer object, its storage and positions updated in place. */
module DtBuffer {
  import opened Common
  import opened Circular
  import ByteFifo

  class Buffer {
    const data: array<Byte>
    var level: nat
    var rd: nat
    var wr: nat

    ghost function View(): ByteFifo.Fifo
      reads this, data
    {
      ByteFifo.Fifo(data[..], rd, wr, level)
    }

    ghost predicate Valid()
      reads this, data
    {
      ByteFifo.Valid(View())
    }

    ghost function Contents(): seq<Byte>
      reads this, data
      requires Valid()
    {
      ByteFifo.Contents(View())
    }

    constructor (size: nat)
      ensures Valid() && fresh(data) && data.Length == size && Contents() == []
    {
      data := new Byte[size];
      level, rd, wr := 0, 0, 0;
    }

    method Reinit()
      modifies `level, `rd, `wr
      ensures Valid() && Contents() == []
    {
      level, rd, wr := 0, 0, 0;
    }

    /** Take the first bytes out, into the front of `out`. */
    method Get(out: array<Byte>, size: nat) returns (len: nat)
      requires Valid() && out != data && Min(level, size) <= out.Length
      modifies `level, `rd, out
      ensures Valid() && len == Min(|old(Contents())|, size)
      ensures out[..len] + Contents() == old(Contents()) && out[len..] == old(out[..])[len..]
    {
      ByteFifo.GetTakesFirst(View(), size);
      len := level;
      GetRaw(out, size);
      len := len - level;
    }

    method GetRaw(out: array<Byte>, size: nat)
      requires Valid() && out != data && Min(level, size) <= out.Length
      modifies `level, `rd, out
      ensures var (b, taken) := ByteFifo.Get(old(View()), size);
              View() == b && out[..] == taken + old(out[..])[|taken|..]
    {
      if level == 0 {
        assert out[..] == [] + out[..];
        return;
      }
      var len := if level < size then level else size;
      CopyOut(data, rd, out, len);
      if wr > rd {
        rd := rd + len;
      } else if len <= data.Length - rd {
        rd := rd + len;
      } else {
        rd := len - (data.Length - rd);
      }
      level := level - len;
    }

    /** Append the first bytes of `input`, as many as fit. */
    method Put(input: seq<Byte>) returns (len: nat)
      requires Valid()
      modifies this, data
      ensures Valid() && len == Min(data.Length - |old(Contents())|, |input|)
      ensures Contents() == old(Contents()) + input[..len]
    {
      ByteFifo.PutAppends(View(), input);
      len := PutRaw(input);
    }

    method PutRaw(input: seq<Byte>) returns (len: nat)
      requires Valid()
      modifies this, data
      ensures (View(), len) == ByteFifo.Put(old(View()), input)
    {
      if level == data.Length {
        return 0;
      }
      len := if data.Length - level < |input| then data.Length - level else |input|;
      CopyIn(data, wr, input[..len]);
      if wr < rd {
        wr := wr + len;
      } else if len <= data.Length - wr {
        wr := wr + len;
      } else {
        wr := len - (data.Length - wr);
      }
      level := level + len;
    }
  }
}
