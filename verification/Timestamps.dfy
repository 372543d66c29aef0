/**
 Clock values as the transport stream carries them: presentation times in PES
 headers (section 2.4.3.6 of ISO/IEC 13818-1) and the program clock reference in
 adaptation fields (section 2.4.3.4).  Both are bit fields, so both are
 bit-vectors here.
 */
module Timestamps {
  import opened Circular

  function Rb16(hi: Byte, lo: Byte): bv64 {
    ((hi as bv64) << 8) | lo as bv64
  }

  /** `parse_pes_pts`. */
  function ParsePts(b: seq<Byte>): bv64
    requires |b| == 5
  {
    (((b[0] & 0x0e) as bv64) << 29) | ((Rb16(b[1], b[2]) >> 1) << 15) | (Rb16(b[3], b[4]) >> 1)
  }

  /** The five-byte field the standard prescribes: a four-bit prefix and 33 bits
      in groups of 3, 15 and 15, each group followed by a marker bit. */
  function PtsField(prefix: Byte, t: bv64): (b: seq<Byte>)
    ensures |b| == 5
  {
    [ (prefix << 4) | ((((t >> 30) & 7) as Byte) << 1) | 1,
      ((t >> 22) & 0xff) as Byte,
      ((((t >> 15) & 0x7f) as Byte) << 1) | 1,
      ((t >> 7) & 0xff) as Byte,
      (((t & 0x7f) as Byte) << 1) | 1 ]
  }

  lemma ParsePtsInvertsField(prefix: Byte, t: bv64)
    requires t < 0x2_0000_0000
    ensures ParsePts(PtsField(prefix, t)) == t
  {
  }

  /** The two numbers in the six bytes of a program clock reference: 33 bits of
      base in 90 kHz units, six reserved bits, nine of extension in 27 MHz units. */
  function PcrParts(b: seq<Byte>): (bv64, bv64)
    requires |b| == 6
  {
    var v := ((b[0] as bv64) << 24) | ((b[1] as bv64) << 16) | ((b[2] as bv64) << 8) | (b[3] as bv64);
    ((v << 1) | ((b[4] >> 7) as bv64), (((b[4] & 0x01) as bv64) << 8) | (b[5] as bv64))
  }

  /** The 90 kHz time `ts_stream_fill_packet` takes from the reference. */
  function PcrTime(b: seq<Byte>): int
    requires |b| == 6
  {
    var (base, ext) := PcrParts(b);
    (base as int * 300 + ext as int) / 300
  }

  function PcrField(base: bv64, ext: bv64): (b: seq<Byte>)
    ensures |b| == 6
  {
    [ ((base >> 25) & 0xff) as Byte,
      ((base >> 17) & 0xff) as Byte,
      ((base >> 9) & 0xff) as Byte,
      ((base >> 1) & 0xff) as Byte,
      (((base & 1) as Byte) << 7) | 0x7e | (((ext >> 8) & 1) as Byte),
      (ext & 0xff) as Byte ]
  }

  lemma PcrPartsInvertField(base: bv64, ext: bv64)
    requires base < 0x2_0000_0000 && ext < 0x200
    ensures PcrParts(PcrField(base, ext)) == (base, ext)
  {
  }

  /** The time is the base exactly for the extensions the standard allows; for the
      larger ones a nine-bit field can hold, it is one tick late. */
  lemma PcrTimeIsBaseIff(base: bv64, ext: bv64)
    requires base < 0x2_0000_0000 && ext < 0x200
    ensures PcrTime(PcrField(base, ext)) == base as int + (if ext as int < 300 then 0 else 1)
  {
    PcrPartsInvertField(base, ext);
  }
}
