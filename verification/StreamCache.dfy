/**
 The cache object, its bytes and counters updated in place.  Every method is
 proved to perform the value operation of module CacheRing on the fields, and
 then to do to the two windows what the cache is for.
 */
module StreamCache {
  import opened Common
  import opened Circular
  import CacheRing

  class Cache {
    const data: array<Byte>
    const fixPreSize: nat
    var level: int
    var preSize: int
    var preRp: int
    var rp: int
    var wp: int

    ghost function View(): CacheRing.Ring
      reads this, data
    {
      CacheRing.Ring(data[..], fixPreSize, preRp, rp, wp, level, preSize)
    }

    ghost predicate Valid()
      reads this, data
    {
      CacheRing.Window(View())
    }

    ghost function History(): seq<Byte>
      reads this, data
      requires Valid()
    {
      CacheRing.History(View())
    }

    ghost function Pending(): seq<Byte>
      reads this, data
      requires Valid()
    {
      CacheRing.Pending(View())
    }

    constructor (size: nat, fixPreSize: nat)
      requires fixPreSize < size
      ensures Valid() && fresh(data) && data.Length == size && this.fixPreSize == fixPreSize
      ensures History() == [] && Pending() == []
    {
      data := new Byte[size];
      this.fixPreSize := fixPreSize;
      level, preSize, preRp, rp, wp := 0, 0, 0, 0, 0;
    }

    method Read(out: array<Byte>, size: nat) returns (len: int)
      requires CacheRing.ReadInside(View(), size)
      requires out != data && Min(level, size) <= out.Length
      modifies `rp, `level, `preSize, out
      ensures len == Min(old(level), size)
      ensures View() == CacheRing.Read(old(View()), size).0
      ensures out[..] == CacheRing.Read(old(View()), size).1 + old(out[..])[len..]
      ensures old(Valid()) ==> Valid() && Pending() == old(Pending())[len..] && History() == old(History()) + out[..len]
    {
      hide CacheRing.Window, Span, Taken;
      if Valid() {
        CacheRing.ReadMovesWindow(View(), size);
      }
      len := if level < size then level else size;
      if len == 0 {
        assert out[..] == [] + out[..];
        return;
      }
      CopyOut(data, rp, out, len);
      if wp > rp {
        rp := rp + len;
      } else if len <= data.Length - rp {
        rp := rp + len;
      } else {
        rp := len - (data.Length - rp);
      }
      level := level - len;
      preSize := preSize + len;
    }

    method Write(input: seq<Byte>) returns (len: int)
      requires CacheRing.WriteInside(View(), |input|)
      modifies this, data
      ensures len == CacheRing.WriteLen(old(View()), |input|)
      ensures View() == CacheRing.Write(old(View()), input)
      ensures old(Valid()) ==> (Valid() <==> len == 0 || !CacheRing.WriteHazard(old(View()), len))
      ensures old(Valid()) && Valid() ==>
        && Pending() == old(Pending()) + input[..len]
        && preSize <= old(preSize) && History() == old(History())[old(preSize) - preSize..]
        && preSize >= Min(old(preSize), fixPreSize)
    {
      hide CacheRing.Window, CacheRing.WriteMeant, CacheRing.WriteHazard, CacheRing.Evicted, Span, Laid;
      if Valid() {
        CacheRing.WriteIsMeantIff(View(), input);
        CacheRing.WriteMeantMovesWindow(View(), input);
      }
      len := if data.Length - level - fixPreSize < |input| then data.Length - level - fixPreSize else |input|;
      if len == 0 {
        return;
      }
      Evict(len);
      CopyIn(data, wp, input[..len]);
      if wp < rp || len <= data.Length - wp {
        wp := wp + len;
      } else {
        wp := len - (data.Length - wp);
      }
      level := level + len;
    }

    /** Take history away before `len` bytes are written. */
    method Evict(len: int)
      modifies `preRp, `preSize
      ensures View() == CacheRing.Evicted(old(View()), len)
    {
      if wp < rp {
        if wp + len >= preRp {
          preRp := wp + len;
          preSize := rp - preRp;
        }
      } else if len <= data.Length - wp {
        if preRp > rp {
          if wp + len > preRp {
            preRp := wp + len;
            preSize := rp + data.Length - preSize;
          }
        }
      } else {
        var tailLen := data.Length - wp;
        if preRp > rp {
          preRp := len - tailLen;
          preSize := rp - preRp;
        } else if preRp < len - tailLen {
          preRp := len - tailLen;
          preSize := rp - preRp;
        }
      }
    }

    method Seek(step: int, forward: bool) returns (ok: bool)
      modifies `rp, `preSize, `level
      ensures (ok, View()) == CacheRing.Seek(old(View()), step, forward)
      ensures old(Valid()) ==> Valid() && History() + Pending() == old(History() + Pending())
    {
      hide CacheRing.Window, Span;
      if Valid() {
        CacheRing.SeekMovesWindow(View(), step, forward);
      }
      if step <= 0 {
        return true;
      }
      if !forward {
        if preSize < step {
          return false;
        }
        if preRp < rp {
          rp := rp - step;
        } else if preRp > rp {
          if rp > step {
            rp := rp - step;
          } else {
            rp := data.Length - (step - rp);
          }
        } else {
          return false;
        }
        preSize, level := preSize - step, level + step;
      } else {
        if level < step {
          return false;
        }
        if rp < wp {
          rp := rp + step;
        } else if rp > wp {
          if data.Length - rp > step {
            rp := rp + step;
          } else {
            rp := step - (data.Length - rp);
          }
        } else {
          return false;
        }
        preSize, level := preSize + step, level - step;
      }
      return true;
    }

    method Reset()
      requires fixPreSize < data.Length
      modifies `rp, `wp, `preRp, `preSize, `level
      ensures View() == CacheRing.Reset(old(View()))
      ensures Valid() && History() == [] && Pending() == []
    {
      rp, wp, preRp := 0, 0, 0;
      preSize, level := 0, 0;
    }
  }
}
