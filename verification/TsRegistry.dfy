/**
 What the transport stream parser knows about a stream: the registered PIDs, the
 tables received or expected, and the elementary streams each program map lists
 (sections 2.4.4.3 and 2.4.4.8 of ISO/IEC 13818-1).

 PID records and tables never move or go away, so a PID stands for its record.
 A table has no chain of versions here: the code that would build one is never
 reached (see `SectionAdded`).
 */
module TsRegistry {
  import opened Common
  import opened Circular

  datatype PidType = Unspec | Sections | PesData | OtherData | NullData

  datatype PidInfo = PidInfo(
    pid: nat, pidtype: PidType, subtype: nat, stype: Byte, pmtpid: nat, defined: bool, pcr: bool
  )

  datatype Table = Table(id: Byte, pid: nat, version: Byte, expected: bool, progid: nat, es: seq<nat>)

  const PAT_ID: Byte := 0x00
  const PMT_ID: Byte := 0x02
  const NIT_ID: Byte := 0x40
  const PST_SI: nat := 6
  const PST_NI: nat := 7

  // -------------------------------------------------------------------- PIDs

  function PidIndex(pids: seq<PidInfo>, pid: nat): (r: Option<nat>)
    ensures r.None? <==> forall i :: 0 <= i < |pids| ==> pids[i].pid != pid
    ensures r.Some? ==> r.value < |pids| && pids[r.value].pid == pid
    ensures r.Some? ==> forall i :: 0 <= i < r.value ==> pids[i].pid != pid
  {
    if pids == [] then None
    else if pids[0].pid == pid then Some(0)
    else
      match PidIndex(pids[1..], pid)
      case None => assert forall i :: 0 < i < |pids| ==> pids[i] == pids[1..][i - 1]; None
      case Some(k) => assert forall i :: 0 < i < |pids| ==> pids[i] == pids[1..][i - 1]; Some(k + 1)
  }

  predicate UniquePids(pids: seq<PidInfo>) {
    forall i, j :: 0 <= i < j < |pids| ==> pids[i].pid != pids[j].pid
  }

  /** A new record; a few PIDs always carry sections, one carries nothing. */
  function NewPid(pid: nat): PidInfo {
    PidInfo(pid, if pid in {0, 1, 2, 0x10} then Sections else if pid == 0x1fff then NullData else Unspec,
            0, 0, 0, pid == 0, false)
  }

  function Registered(pids: seq<PidInfo>, pid: nat): (r: seq<PidInfo>)
    ensures PidIndex(r, pid).Some?
  {
    if PidIndex(pids, pid).Some? then pids
    else
      var r := pids + [NewPid(pid)];
      assert r[|pids|].pid == pid;
      r
  }

  function Reset(info: PidInfo): PidInfo {
    PidInfo(info.pid, Unspec, 0, 0, 0, false, false)
  }

  /** The record of `pid` becomes `info`. */
  function Updated(pids: seq<PidInfo>, info: PidInfo): seq<PidInfo> {
    match PidIndex(pids, info.pid)
    case None => pids
    case Some(i) => pids[i := info]
  }

  function RecordOf(pids: seq<PidInfo>, pid: nat): (info: PidInfo)
    requires PidIndex(pids, pid).Some?
    ensures info.pid == pid
  {
    pids[PidIndex(pids, pid).value]
  }

  lemma RegisteringKeepsUnique(pids: seq<PidInfo>, pid: nat, info: PidInfo)
    requires UniquePids(pids)
    ensures UniquePids(Registered(pids, pid)) && UniquePids(Updated(pids, info))
  {
    hide PidIndex, NewPid;
    if PidIndex(pids, info.pid).Some? {
      var r := Updated(pids, info);
      assert forall i :: 0 <= i < |r| ==> r[i].pid == pids[i].pid;
    }
  }

  /** What a PID starts out as: five PIDs are known for what they carry. */
  lemma NewPidIsKnown(pid: nat)
    ensures var info := NewPid(pid);
            && info.pid == pid && !info.pcr && info.pmtpid == 0 && info.stype == 0 && info.subtype == 0
            && (info.pidtype.Sections? <==> pid in {0x00, 0x01, 0x02, 0x10})
            && (info.pidtype.NullData? <==> pid == 0x1fff)
            && (info.pidtype.Unspec? <==> pid !in {0x00, 0x01, 0x02, 0x10, 0x1fff})
            && (info.defined <==> pid == 0)
  {
  }

  lemma SamePidsSameIndex(a: seq<PidInfo>, b: seq<PidInfo>, pid: nat)
    requires |a| <= |b| && forall i :: 0 <= i < |a| ==> a[i].pid == b[i].pid
    requires PidIndex(a, pid).Some?
    ensures PidIndex(b, pid) == PidIndex(a, pid)
  {
    var i := PidIndex(a, pid).value;
    assert b[i].pid == pid;
  }

  /** The registered PIDs stay registered, and all but `pid` as they were. */
  ghost predicate OthersKept(before: seq<PidInfo>, after: seq<PidInfo>, pid: nat) {
    forall other :: PidIndex(before, other).Some? ==>
      && PidIndex(after, other).Some?
      && (other != pid ==> RecordOf(after, other) == RecordOf(before, other))
  }

  lemma RegisteredRecord(pids: seq<PidInfo>, pid: nat)
    ensures var q := Registered(pids, pid);
            && RecordOf(q, pid) == (if PidIndex(pids, pid).Some? then RecordOf(pids, pid) else NewPid(pid))
            && OthersKept(pids, q, pid)
  {
    hide NewPid;
    var q := Registered(pids, pid);
    forall other | PidIndex(pids, other).Some?
      ensures PidIndex(q, other) == PidIndex(pids, other)
    {
      SamePidsSameIndex(pids, q, other);
    }
  }

  lemma KeptThrough(a: seq<PidInfo>, b: seq<PidInfo>, c: seq<PidInfo>, pid: nat)
    requires OthersKept(a, b, pid) && OthersKept(b, c, pid)
    ensures OthersKept(a, c, pid)
  {
    hide PidIndex, RecordOf;
  }

  lemma UpdatedRecord(pids: seq<PidInfo>, info: PidInfo)
    requires PidIndex(pids, info.pid).Some?
    ensures var q := Updated(pids, info);
            PidIndex(q, info.pid).Some? && RecordOf(q, info.pid) == info && OthersKept(pids, q, info.pid)
  {
    var q := Updated(pids, info);
    forall other | PidIndex(pids, other).Some?
      ensures PidIndex(q, other) == PidIndex(pids, other)
    {
      SamePidsSameIndex(pids, q, other);
    }
  }

  // ------------------------------------------------------------------ tables

  function TableIndex(ts: seq<Table>, id: Byte, pid: nat): (r: Option<nat>)
    ensures r.None? <==> forall i :: 0 <= i < |ts| ==> !(ts[i].id == id && ts[i].pid == pid)
    ensures r.Some? ==> r.value < |ts| && ts[r.value].id == id && ts[r.value].pid == pid
    ensures r.Some? ==> forall i :: 0 <= i < r.value ==> !(ts[i].id == id && ts[i].pid == pid)
  {
    if ts == [] then None
    else if ts[0].id == id && ts[0].pid == pid then Some(0)
    else
      match TableIndex(ts[1..], id, pid)
      case None => assert forall i :: 0 < i < |ts| ==> ts[i] == ts[1..][i - 1]; None
      case Some(k) => assert forall i :: 0 < i < |ts| ==> ts[i] == ts[1..][i - 1]; Some(k + 1)
  }

  /** At most one entry per PID among the tables with this id. */
  predicate UniqueTables(ts: seq<Table>, id: Byte) {
    forall i, j :: 0 <= i < j < |ts| ==> !(ts[i].id == id && ts[j].id == id && ts[i].pid == ts[j].pid)
  }

  /** `ts__table_decode` up to the body: the tables after a section, and the index
      of the entry its body goes to, or none for a repeated version.  A version
      that differs from the registered one falls through two searches; the second
      walks its own cursor to null, so the entry is appended as if it were the
      first with its id and PID. */
  function SectionAdded(ts: seq<Table>, id: Byte, pid: nat, version: Byte): (seq<Table>, Option<nat>) {
    match TableIndex(ts, id, pid)
    case None => (ts + [Table(id, pid, version, false, 0, [])], Some(|ts|))
    case Some(i) =>
      var entry := Table(id, pid, version, false, ts[i].progid, []);
      if ts[i].expected then (ts[i := entry], Some(i))
      else if ts[i].version == version then (ts, None)
      else (ts + [entry], Some(|ts|))
  }

  /** The section brings a new version of a table that has been received. */
  predicate NewVersion(ts: seq<Table>, id: Byte, pid: nat, version: Byte) {
    var i := TableIndex(ts, id, pid);
    i.Some? && !ts[i.value].expected && ts[i.value].version != version
  }

  /** A section leaves at most one entry per PID if and only if it is not a new
      version of a table already received. */
  lemma SectionKeepsUniqueIff(ts: seq<Table>, id: Byte, pid: nat, version: Byte)
    requires UniqueTables(ts, id)
    ensures UniqueTables(SectionAdded(ts, id, pid, version).0, id) <==> !NewVersion(ts, id, pid, version)
  {
    var r := SectionAdded(ts, id, pid, version).0;
    if NewVersion(ts, id, pid, version) {
      var i := TableIndex(ts, id, pid).value;
      assert r[i] == ts[i] && r[|ts|].pid == pid;
    }
  }

  /** The entry that a section's body goes to: of its version, received, empty, and
      with the number of the program that was registered for it, if any.  A section
      without one repeats the version of a received table. */
  lemma EntryOfSection(ts: seq<Table>, id: Byte, pid: nat, version: Byte)
    ensures var (r, at) := SectionAdded(ts, id, pid, version);
            var was := TableIndex(ts, id, pid);
            match at
            case None => r == ts && was.Some? && ts[was.value].version == version && !ts[was.value].expected
            case Some(i) =>
              && i < |r| && i <= |ts| && (i < |ts| ==> was == Some(i) && ts[i].expected && |r| == |ts|)
              && r[i] == Table(id, pid, version, false, if was.Some? then ts[was.value].progid else 0, [])
              && forall j :: 0 <= j < |ts| && j != i ==> r[j] == ts[j]
  {
  }

  function Repeated(ts: seq<Table>, id: Byte, pid: nat, version: Byte, n: nat): seq<Table> {
    if n == 0 then ts else SectionAdded(Repeated(ts, id, pid, version, n - 1), id, pid, version).0
  }

  /** The new version is never found again: every repetition of the section adds
      one more entry. */
  lemma {:induction false} NewVersionKeepsGrowing(ts: seq<Table>, id: Byte, pid: nat, version: Byte, n: nat)
    requires NewVersion(ts, id, pid, version)
    ensures var r := Repeated(ts, id, pid, version, n);
            |r| == |ts| + n && ts <= r && NewVersion(r, id, pid, version)
  {
    if n > 0 {
      NewVersionKeepsGrowing(ts, id, pid, version, n - 1);
      var q := Repeated(ts, id, pid, version, n - 1);
      var r := SectionAdded(q, id, pid, version).0;
      var i := TableIndex(q, id, pid).value;
      assert r == q + [r[|q|]] && r[i] == q[i];
      FirstStaysFirst(q, r[|q|], id, pid);
    }
  }

  lemma FirstStaysFirst(ts: seq<Table>, extra: Table, id: Byte, pid: nat)
    requires TableIndex(ts, id, pid).Some?
    ensures TableIndex(ts + [extra], id, pid) == TableIndex(ts, id, pid)
  {
    assert (ts + [extra])[TableIndex(ts, id, pid).value] == ts[TableIndex(ts, id, pid).value];
  }

  // --------------------------------------------------- association sections

  datatype Program = Program(number: nat, pid: nat)

  /** The programs the loop of `ts__pat_decode` reads from offset `at` on: number
      and PID, two bytes each. */
  function ProgramsFrom(data: seq<Byte>, at: nat, n: nat): (Outcome, seq<Program>)
    decreases n
  {
    if n == 0 then (Done, [])
    else if at + 4 > |data| then (Overrun, [])
    else
      var p := Program(data[at] as nat * 256 + data[at + 1] as nat, PidOf(data[at + 2], data[at + 3]));
      var (o, rest) := ProgramsFrom(data, at + 4, n - 1);
      (o, [p] + rest)
  }

  /** One entry of the association: a map table to expect, a PID for sections. */
  function ProgramTables(ts: seq<Table>, p: Program): seq<Table> {
    match TableIndex(ts, PMT_ID, p.pid)
    case None => ts + [Table(if p.number == 0 then NIT_ID else PMT_ID, p.pid, 0, true, p.number, [])]
    case Some(i) => ts[i := ts[i].(progid := p.number)]
  }

  function ProgramPids(pids: seq<PidInfo>, p: Program): seq<PidInfo> {
    var q := Registered(pids, p.pid);
    var info := RecordOf(q, p.pid);
    var base := if info.pidtype in {Sections, Unspec} then info else Reset(info);
    Updated(q, base.(pidtype := Sections, subtype := if p.number == 0 then PST_NI else PST_SI, defined := true))
  }

  /** The program's PID carries sections, and the first map table on it, if there is
      one, is the program's. */
  lemma ProgramIsRegistered(ts: seq<Table>, pids: seq<PidInfo>, p: Program)
    ensures var q := ProgramPids(pids, p);
            && PidIndex(q, p.pid).Some? && OthersKept(pids, q, p.pid)
            && var info := RecordOf(q, p.pid);
               && info.pidtype.Sections? && info.defined && info.subtype == (if p.number == 0 then 7 else 6)
               && (PidIndex(pids, p.pid).Some? ==>
                     var was := RecordOf(pids, p.pid);
                     if was.pidtype in {Sections, Unspec}
                     then (info.stype, info.pmtpid, info.pcr) == (was.stype, was.pmtpid, was.pcr)
                     else (info.stype, info.pmtpid, info.pcr) == (0, 0, false))
    ensures var r := ProgramTables(ts, p);
            match TableIndex(ts, PMT_ID, p.pid)
            case Some(i) => r == ts[i := ts[i].(progid := p.number)] && TableIndex(r, PMT_ID, p.pid) == Some(i)
            case None =>
              && |r| == |ts| + 1 && ts <= r && r[|ts|].expected && r[|ts|].progid == p.number && r[|ts|].pid == p.pid
              && r[|ts|].id == (if p.number == 0 then 0x40 else 0x02)
              && (p.number != 0 ==> TableIndex(r, PMT_ID, p.pid) == Some(|ts|))
  {
    hide NewPid, PidIndex, Registered, Updated;
    RegisteredRecord(pids, p.pid);
    var q := Registered(pids, p.pid);
    var info := RecordOf(q, p.pid);
    var base := if info.pidtype in {Sections, Unspec} then info else Reset(info);
    UpdatedRecord(q, base.(pidtype := Sections, subtype := if p.number == 0 then PST_NI else PST_SI, defined := true));
    KeptThrough(pids, q, ProgramPids(pids, p), p.pid);
    ProgramTableFound(ts, p);
  }

  lemma ProgramTableFound(ts: seq<Table>, p: Program)
    ensures var r := ProgramTables(ts, p);
            match TableIndex(ts, PMT_ID, p.pid)
            case Some(i) => TableIndex(r, PMT_ID, p.pid) == Some(i)
            case None => p.number != 0 ==> TableIndex(r, PMT_ID, p.pid) == Some(|ts|)
  {
    var r := ProgramTables(ts, p);
    match TableIndex(ts, PMT_ID, p.pid)
    case Some(i) => assert r[i].id == PMT_ID && r[i].pid == p.pid;
    case None =>
      if p.number != 0 {
        assert r[|ts|].id == PMT_ID && r[|ts|].pid == p.pid;
      }
  }

  lemma ProgramKeepsUnique(ts: seq<Table>, pids: seq<PidInfo>, p: Program)
    ensures UniqueTables(ts, PMT_ID) ==> UniqueTables(ProgramTables(ts, p), PMT_ID)
    ensures UniquePids(pids) ==> UniquePids(ProgramPids(pids, p))
  {
    if UniquePids(pids) {
      var q := Registered(pids, p.pid);
      var info := RecordOf(q, p.pid);
      RegisteringKeepsUnique(pids, p.pid, info);
      var base := if info.pidtype in {Sections, Unspec} then info else Reset(info);
      RegisteringKeepsUnique(q, p.pid,
        base.(pidtype := Sections, subtype := if p.number == 0 then PST_NI else PST_SI, defined := true));
    }
  }

  /** A stream that runs into it: an association that names a program, the
      program's map, and the map in its next version leave two maps for one PID. */
  lemma SecondMapRun()
    ensures var ts1 := SectionAdded([], PAT_ID, 0, 0).0;
            var ts2 := ProgramTables(ts1, Program(1, 100));
            var (ts3, first) := SectionAdded(ts2, PMT_ID, 100, 1);
            var (ts4, second) := SectionAdded(ts3, PMT_ID, 100, 2);
            && UniqueTables(ts3, PMT_ID) && first == Some(1)
            && NewVersion(ts3, PMT_ID, 100, 2) && second == Some(2)
            && !UniqueTables(ts4, PMT_ID) && TableIndex(ts4, PMT_ID, 100) == Some(1)
  {
    var ts1 := SectionAdded([], PAT_ID, 0, 0).0;
    assert TableIndex([], PAT_ID, 0).None? && TableIndex(ts1, PMT_ID, 100).None?;
    var ts2 := ProgramTables(ts1, Program(1, 100));
    assert ts2[1] == Table(PMT_ID, 100, 0, true, 1, []);
    var ts3 := SectionAdded(ts2, PMT_ID, 100, 1).0;
    assert ts3[1] == Table(PMT_ID, 100, 1, false, 1, []);
    SectionKeepsUniqueIff(ts3, PMT_ID, 100, 2);
  }

  // ------------------------------------------------------------ map sections

  datatype Outcome = Done | TooLong | Overrun   // Overrun: reads behind the section

  datatype Es = Es(stype: Byte, pid: nat)

  const SIZE_T: nat := 0x1_0000_0000_0000_0000

  /** A 13-bit PID and a 12-bit length, each in two bytes with reserved bits. */
  function PidOf(hi: Byte, lo: Byte): nat {
    (hi & 0x1f) as nat * 256 + lo as nat
  }

  function LengthOf(hi: Byte, lo: Byte): nat {
    (hi & 0x0f) as nat * 256 + lo as nat
  }

  /** The unsigned count of bytes left, after taking n. */
  function Less(left: nat, n: nat): (r: nat)
    requires left < SIZE_T
    ensures r < SIZE_T && (n <= left ==> r == left - n)
  {
    (left - n) % SIZE_T
  }

  /** The count is of 64 bits: a section too short for its own head leaves almost all
      of them. */
  lemma CountWraps(left: nat, n: nat)
    requires left < n <= 64
    ensures Less(left, n) == 18446744073709551616 + left - n
  {
  }

  /** The streams the loop of `ts__pmt_decode` registers from offset `at` on. */
  function StreamsFrom(data: seq<Byte>, at: nat, left: nat): (Outcome, seq<Es>)
    requires left < SIZE_T
    decreases |data| - at
  {
    if left == 0 then (Done, [])
    else if at + 5 > |data| then (Overrun, [])
    else
      var es := Es(data[at], PidOf(data[at + 1], data[at + 2]));
      var infolen := LengthOf(data[at + 3], data[at + 4]);
      var left2 := Less(left, 5);
      if infolen > left2 then (TooLong, [es])
      else
        var (o, rest) := StreamsFrom(data, at + 5 + infolen, left2 - infolen);
        (o, [es] + rest)
  }

  /** The clock's PID, as the map section's head registers it. */
  function ClockPids(pids: seq<PidInfo>, pmtpid: nat, pid: nat): seq<PidInfo> {
    var q := Registered(pids, pid);
    var info := RecordOf(q, pid);
    var base := if info.pidtype.Unspec? || pmtpid != info.pmtpid
                then Reset(info).(pidtype := PesData, subtype := PST_SI) else info;
    Updated(q, base.(defined := true, pcr := true, pmtpid := pmtpid))
  }

  /** One stream of the map; `types` is the table of stream types. */
  function StreamPids(types: Byte -> (PidType, nat), pids: seq<PidInfo>, pmtpid: nat, es: Es): seq<PidInfo> {
    var q := Registered(pids, es.pid);
    var info := RecordOf(q, es.pid);
    var (ptype, subtype) := types(es.stype);
    var base := if (ptype != info.pidtype && info.pidtype != Unspec) || pmtpid != info.pmtpid
                then Reset(info) else info;
    Updated(q, base.(defined := true, stype := es.stype, pidtype := ptype, subtype := subtype, pmtpid := pmtpid))
  }

  function AllStreamPids(types: Byte -> (PidType, nat), pids: seq<PidInfo>, pmtpid: nat, list: seq<Es>): seq<PidInfo>
  {
    if list == [] then pids
    else StreamPids(types, AllStreamPids(types, pids, pmtpid, list[..|list| - 1]), pmtpid, list[|list| - 1])
  }

  /** The record of the stream's PID says what the map says of the stream. */
  predicate Describes(types: Byte -> (PidType, nat), pids: seq<PidInfo>, pmtpid: nat, es: Es) {
    && PidIndex(pids, es.pid).Some?
    && var info := RecordOf(pids, es.pid);
       info.stype == es.stype && (info.pidtype, info.subtype) == types(es.stype) && info.pmtpid == pmtpid && info.defined
  }

  /** Afterwards the record says what the map says; that the PID carries the clock is
      forgotten if it is new, belonged to another map or was of another type; and no
      other record changes. */
  lemma StreamIsDescribed(types: Byte -> (PidType, nat), pids: seq<PidInfo>, pmtpid: nat, es: Es)
    ensures var q := StreamPids(types, pids, pmtpid, es);
            && Describes(types, q, pmtpid, es) && OthersKept(pids, q, es.pid)
            && (RecordOf(q, es.pid).pcr <==>
                  && PidIndex(pids, es.pid).Some?
                  && var info := RecordOf(pids, es.pid);
                     info.pcr && info.pmtpid == pmtpid && info.pidtype in {Unspec, types(es.stype).0})
  {
    hide PidIndex, Updated, Registered, NewPid, OthersKept, RecordOf;
    NewPidIsKnown(es.pid);
    RegisteredRecord(pids, es.pid);
    var q := Registered(pids, es.pid);
    var info := RecordOf(q, es.pid);
    var (ptype, subtype) := types(es.stype);
    var base := if (ptype != info.pidtype && info.pidtype != Unspec) || pmtpid != info.pmtpid
                then Reset(info) else info;
    UpdatedRecord(q, base.(defined := true, stype := es.stype, pidtype := ptype, subtype := subtype, pmtpid := pmtpid));
    KeptThrough(pids, q, StreamPids(types, pids, pmtpid, es), es.pid);
  }

  /** Of the descriptions of one PID in a map the last one stands. */
  lemma {:induction false} LastDescriptionStands(types: Byte -> (PidType, nat), pids: seq<PidInfo>, pmtpid: nat,
                                                 list: seq<Es>, i: nat)
    requires i < |list| && forall j :: i < j < |list| ==> list[j].pid != list[i].pid
    ensures Describes(types, AllStreamPids(types, pids, pmtpid, list), pmtpid, list[i])
    decreases |list|
  {
    hide StreamPids, PidIndex, Describes, RecordOf;
    var init, last := list[..|list| - 1], list[|list| - 1];
    var p := AllStreamPids(types, pids, pmtpid, init);
    StreamIsDescribed(types, p, pmtpid, last);
    if i < |init| {
      LastDescriptionStands(types, pids, pmtpid, init, i);
      DescriptionStays(types, p, StreamPids(types, p, pmtpid, last), pmtpid, list[i], last.pid);
    }
  }

  lemma DescriptionStays(types: Byte -> (PidType, nat), before: seq<PidInfo>, after: seq<PidInfo>, pmtpid: nat,
                         es: Es, pid: nat)
    requires Describes(types, before, pmtpid, es) && OthersKept(before, after, pid) && pid != es.pid
    ensures Describes(types, after, pmtpid, es)
  {
    hide PidIndex;
  }

  /** A PID the map does not name keeps its record. */
  lemma {:induction false} UnnamedStay(types: Byte -> (PidType, nat), pids: seq<PidInfo>, pmtpid: nat, list: seq<Es>,
                                       pid: nat)
    requires PidIndex(pids, pid).Some? && forall i :: 0 <= i < |list| ==> list[i].pid != pid
    ensures var q := AllStreamPids(types, pids, pmtpid, list);
            PidIndex(q, pid).Some? && RecordOf(q, pid) == RecordOf(pids, pid)
    decreases |list|
  {
    hide StreamPids, PidIndex, RecordOf, Describes;
    if list != [] {
      var init, last := list[..|list| - 1], list[|list| - 1];
      UnnamedStay(types, pids, pmtpid, init, pid);
      StreamIsDescribed(types, AllStreamPids(types, pids, pmtpid, init), pmtpid, last);
    }
  }

  /** The clock's PID is marked, belongs to the map, and carries packets unless this
      map already said otherwise. */
  lemma ClockIsMarked(pids: seq<PidInfo>, pmtpid: nat, pid: nat)
    ensures var q := ClockPids(pids, pmtpid, pid);
            && OthersKept(pids, q, pid) && PidIndex(q, pid).Some?
            && var info := RecordOf(q, pid);
               && info.pcr && info.defined && info.pmtpid == pmtpid
               && (PidIndex(pids, pid).None? && pmtpid != 0 ==> info.pidtype.PesData? && info.subtype == 6)
               && (PidIndex(pids, pid).Some? ==>
                     var was := RecordOf(pids, pid);
                     if was.pidtype.Unspec? || was.pmtpid != pmtpid
                     then info.pidtype.PesData? && info.subtype == 6 && info.stype == 0
                     else info == was.(defined := true, pcr := true))
  {
    hide PidIndex, Updated, Registered;
    NewPidIsKnown(pid);
    RegisteredRecord(pids, pid);
    var q := Registered(pids, pid);
    var info := RecordOf(q, pid);
    var base := if info.pidtype.Unspec? || pmtpid != info.pmtpid
                then Reset(info).(pidtype := PesData, subtype := PST_SI) else info;
    UpdatedRecord(q, base.(defined := true, pcr := true, pmtpid := pmtpid));
    KeptThrough(pids, q, ClockPids(pids, pmtpid, pid), pid);
  }

  /** `ts__pmt_addpid`. */
  function AddEs(es: seq<nat>, pid: nat): seq<nat> {
    if pid in es then es else es + [pid]
  }

  function AllEs(es: seq<nat>, list: seq<Es>): seq<nat> {
    if list == [] then es else AddEs(AllEs(es, list[..|list| - 1]), list[|list| - 1].pid)
  }

  predicate NoDuplicates(es: seq<nat>) {
    forall i, j :: 0 <= i < j < |es| ==> es[i] != es[j]
  }

  /** Whatever the section holds, each PID stays registered once and listed once. */
  lemma {:induction false} StreamsKeepUnique(types: Byte -> (PidType, nat), pids: seq<PidInfo>, pmtpid: nat,
                                             es: seq<nat>, list: seq<Es>)
    ensures UniquePids(pids) ==> UniquePids(AllStreamPids(types, pids, pmtpid, list))
    ensures NoDuplicates(es) ==> NoDuplicates(AllEs(es, list))
    ensures forall pid :: pid in AllEs(es, list) <==> pid in es || exists i :: 0 <= i < |list| && list[i].pid == pid
    decreases |list|
  {
    if list != [] {
      var init, last := list[..|list| - 1], list[|list| - 1];
      StreamsKeepUnique(types, pids, pmtpid, es, init);
      if UniquePids(pids) {
        var p := AllStreamPids(types, pids, pmtpid, init);
        StreamKeepsUnique(types, p, pmtpid, last);
      }
      ListedSoFar(es, list);
    }
  }

  lemma StreamKeepsUnique(types: Byte -> (PidType, nat), pids: seq<PidInfo>, pmtpid: nat, es: Es)
    requires UniquePids(pids)
    ensures UniquePids(StreamPids(types, pids, pmtpid, es))
  {
    var q := Registered(pids, es.pid);
    var info := RecordOf(q, es.pid);
    RegisteringKeepsUnique(pids, es.pid, info);
    var (ptype, subtype) := types(es.stype);
    var base := if (ptype != info.pidtype && info.pidtype != Unspec) || pmtpid != info.pmtpid
                then Reset(info) else info;
    RegisteringKeepsUnique(q, es.pid,
      base.(defined := true, stype := es.stype, pidtype := ptype, subtype := subtype, pmtpid := pmtpid));
  }

  function PidsOf(list: seq<Es>): (pids: seq<nat>)
    ensures |pids| == |list|
  {
    seq(|list|, i requires 0 <= i < |list| => list[i].pid)
  }

  /** Streams on PIDs of their own are listed in the order of the map, behind those
      listed before. */
  lemma {:induction false} ListedInOrder(es: seq<nat>, list: seq<Es>)
    requires NoDuplicates(es + PidsOf(list))
    ensures AllEs(es, list) == es + PidsOf(list)
    decreases |list|
  {
    if list == [] {
      assert es + PidsOf(list) == es;
    } else {
      var init, last := list[..|list| - 1], list[|list| - 1];
      assert es + PidsOf(list) == (es + PidsOf(init)) + [last.pid];
      var all, front := es + PidsOf(list), es + PidsOf(init);
      assert forall i :: 0 <= i < |front| ==> all[i] == front[i] && all[i] != all[|front|];
      ListedInOrder(es, init);
    }
  }

  lemma ListedSoFar(es: seq<nat>, list: seq<Es>)
    requires list != []
    requires var init := list[..|list| - 1];
             forall pid :: pid in AllEs(es, init) <==> pid in es || exists i :: 0 <= i < |init| && init[i].pid == pid
    ensures forall pid :: pid in AllEs(es, list) <==> pid in es || exists i :: 0 <= i < |list| && list[i].pid == pid
  {
    var init := list[..|list| - 1];
    forall pid
      ensures pid in AllEs(es, list) <==> pid in es || exists i :: 0 <= i < |list| && list[i].pid == pid
    {
      if i :| 0 <= i < |list| && list[i].pid == pid {
        if i < |init| {
          assert init[i].pid == pid;
        }
      }
    }
  }

  // ----------------------------------------------------- a map as the sender writes it

  /** A stream description: type, PID (five bits and eight), length of the
      descriptors (four bits and eight), descriptors. */
  datatype Stream = Stream(stype: Byte, hi: Byte, lo: Byte, lenHi: Byte, lenLo: Byte, info: seq<Byte>)

  predicate LengthIs(hi: Byte, lo: Byte, n: nat) {
    hi & 0xf0 == 0 && hi as nat * 256 + lo as nat == n
  }

  predicate Fits(s: Stream) {
    s.hi & 0xe0 == 0 && LengthIs(s.lenHi, s.lenLo, |s.info|)
  }

  function Encode(s: Stream): (b: seq<Byte>)
    requires Fits(s)
    ensures |b| == 5 + |s.info|
  {
    [s.stype, 0xe0 | s.hi, s.lo, 0xf0 | s.lenHi, s.lenLo] + s.info
  }

  function EncodeAll(list: seq<Stream>): seq<Byte>
    requires forall i :: 0 <= i < |list| ==> Fits(list[i])
  {
    if list == [] then [] else Encode(list[0]) + EncodeAll(list[1..])
  }

  function Meant(list: seq<Stream>): seq<Es> {
    if list == [] then [] else [Es(list[0].stype, list[0].hi as nat * 256 + list[0].lo as nat)] + Meant(list[1..])
  }

  lemma MaskBack(hi: Byte)
    ensures hi & 0xe0 == 0 ==> (0xe0 | hi) & 0x1f == hi
    ensures hi & 0xf0 == 0 ==> (0xf0 | hi) & 0x0f == hi
  {
  }

  lemma EncodedFields(s: Stream, rest: seq<Byte>)
    requires Fits(s)
    ensures var b := Encode(s) + rest;
            && b[0] == s.stype && PidOf(b[1], b[2]) == s.hi as nat * 256 + s.lo as nat
            && LengthOf(b[3], b[4]) == |s.info| && b[5 + |s.info|..] == rest
  {
    MaskBack(s.hi);
    MaskBack(s.lenHi);
  }

  lemma ReadAt(data: seq<Byte>, at: nat, b: seq<Byte>, skip: nat)
    requires at <= |data| && data[at..] == b && 5 <= skip <= |b|
    ensures at + skip <= |data| && data[at + skip..] == b[skip..]
    ensures data[at] == b[0] && data[at + 1] == b[1] && data[at + 2] == b[2]
    ensures data[at + 3] == b[3] && data[at + 4] == b[4]
  {
  }

  lemma OneTurn(data: seq<Byte>, at: nat, left: nat, es: Es, infolen: nat)
    requires 5 + infolen <= left < SIZE_T && at + 5 <= |data|
    requires es == Es(data[at], PidOf(data[at + 1], data[at + 2])) && infolen == LengthOf(data[at + 3], data[at + 4])
    ensures var (o, list) := StreamsFrom(data, at + 5 + infolen, left - 5 - infolen);
            StreamsFrom(data, at, left) == (o, [es] + list)
  {
    hide PidOf, LengthOf;
  }

  lemma OneStream(data: seq<Byte>, at: nat, left: nat, s: Stream, rest: seq<Byte>)
    requires Fits(s) && at <= |data| && data[at..] == Encode(s) + rest && 5 + |s.info| <= left < SIZE_T
    ensures var next := at + 5 + |s.info|;
            && next <= |data| && data[next..] == rest
            && var (o, list) := StreamsFrom(data, next, left - 5 - |s.info|);
               StreamsFrom(data, at, left) == (o, [Es(s.stype, s.hi as nat * 256 + s.lo as nat)] + list)
  {
    hide Encode, PidOf, LengthOf, Less, StreamsFrom, Fits;
    EncodedFields(s, rest);
    ReadAt(data, at, Encode(s) + rest, 5 + |s.info|);
    OneTurn(data, at, left, Es(s.stype, s.hi as nat * 256 + s.lo as nat), |s.info|);
  }

  /** The loop visits exactly the streams the sender encoded and ends with no
      bytes left. */
  lemma {:induction false} LoopInvertsEncoding(data: seq<Byte>, at: nat, list: seq<Stream>, behind: seq<Byte>)
    requires forall i :: 0 <= i < |list| ==> Fits(list[i])
    requires at <= |data| && data[at..] == EncodeAll(list) + behind && |EncodeAll(list)| < SIZE_T
    ensures StreamsFrom(data, at, |EncodeAll(list)|) == (Done, Meant(list))
    decreases |list|
  {
    hide Encode, PidOf, LengthOf, Less, Fits, StreamsFrom, EncodeAll, Meant;
    EncodingUnfolds(data, at, list);
    if list != [] {
      var s, tail := list[0], EncodeAll(list[1..]);
      Associate(Encode(s), tail, behind);
      OneStream(data, at, |EncodeAll(list)|, s, tail + behind);
      LoopInvertsEncoding(data, at + 5 + |s.info|, list[1..], behind);
    }
  }

  lemma EncodingUnfolds(data: seq<Byte>, at: nat, list: seq<Stream>)
    requires forall i :: 0 <= i < |list| ==> Fits(list[i])
    ensures list == [] ==> EncodeAll(list) == [] && Meant(list) == [] && StreamsFrom(data, at, 0) == (Done, [])
    ensures list != [] ==>
      && EncodeAll(list) == Encode(list[0]) + EncodeAll(list[1..])
      && |EncodeAll(list)| == 5 + |list[0].info| + |EncodeAll(list[1..])|
      && Meant(list) == [Es(list[0].stype, list[0].hi as nat * 256 + list[0].lo as nat)] + Meant(list[1..])
  {
  }

  lemma Associate(a: seq<Byte>, b: seq<Byte>, c: seq<Byte>)
    ensures a + b + c == a + (b + c)
  {
  }

  /** A map section's body as a whole: the clock's PID and the streams, with the
      bytes left as `seclen` (which counts five header bytes before and four
      checksum bytes behind) has it. */
  function MapOf(data: seq<Byte>, seclen: nat): (Outcome, nat, seq<Es>)
    requires |data| >= 4 && seclen < SIZE_T
  {
    var desclen := LengthOf(data[2], data[3]);
    var (o, list) := StreamsFrom(data, 4 + desclen, Less(Less(Less(seclen, 9), 4), desclen));
    (o, PidOf(data[0], data[1]), list)
  }

  function EncodeMap(hi: Byte, lo: Byte, lenHi: Byte, lenLo: Byte, desc: seq<Byte>, list: seq<Stream>, crc: seq<Byte>)
    : (b: seq<Byte>)
    requires forall i :: 0 <= i < |list| ==> Fits(list[i])
  {
    [0xe0 | hi, lo, 0xf0 | lenHi, lenLo] + desc + EncodeAll(list) + crc
  }

  /** A program as the sender writes it: number, PID in five bits and eight. */
  datatype Entry = Entry(numHi: Byte, numLo: Byte, hi: Byte, lo: Byte)

  function EncodePrograms(list: seq<Entry>): (b: seq<Byte>)
    ensures |b| == 4 * |list|
  {
    if list == [] then []
    else [list[0].numHi, list[0].numLo, 0xe0 | list[0].hi, list[0].lo] + EncodePrograms(list[1..])
  }

  function MeantPrograms(list: seq<Entry>): seq<Program> {
    if list == [] then []
    else
      var e := list[0];
      [Program(e.numHi as nat * 256 + e.numLo as nat, e.hi as nat * 256 + e.lo as nat)] + MeantPrograms(list[1..])
  }

  /** The association's loop visits exactly the programs that were encoded. */
  lemma {:induction false} ProgramsInvertEncoding(data: seq<Byte>, at: nat, list: seq<Entry>, behind: seq<Byte>)
    requires forall i :: 0 <= i < |list| ==> list[i].hi & 0xe0 == 0
    requires at <= |data| && data[at..] == EncodePrograms(list) + behind
    ensures ProgramsFrom(data, at, |list|) == (Done, MeantPrograms(list))
    decreases |list|
  {
    hide PidOf;
    if list != [] {
      var b := data[at..];
      var e, rest := list[0], EncodePrograms(list[1..]) + behind;
      assert b == [e.numHi, e.numLo, 0xe0 | e.hi, e.lo] + rest;
      assert data[at] == b[0] && data[at + 1] == b[1] && data[at + 2] == b[2] && data[at + 3] == b[3];
      assert data[at + 4..] == b[4..] == rest;
      ProgramPid(e.hi, e.lo);
      ProgramsInvertEncoding(data, at + 4, list[1..], behind);
    }
  }

  lemma ProgramPid(hi: Byte, lo: Byte)
    requires hi & 0xe0 == 0
    ensures PidOf(0xe0 | hi, lo) == hi as nat * 256 + lo as nat
  {
    MaskBack(hi);
  }

  lemma EncodedHead(hi: Byte, lo: Byte, lenHi: Byte, lenLo: Byte, desc: seq<Byte>, rest: seq<Byte>)
    requires hi & 0xe0 == 0 && LengthIs(lenHi, lenLo, |desc|)
    ensures var b := [0xe0 | hi, lo, 0xf0 | lenHi, lenLo] + desc + rest;
            && PidOf(b[0], b[1]) == hi as nat * 256 + lo as nat
            && LengthOf(b[2], b[3]) == |desc| && b[4 + |desc|..] == rest
  {
    MaskBack(hi);
    MaskBack(lenHi);
  }

  lemma MapAfterHead(data: seq<Byte>, desclen: nat, list: seq<Stream>, crc: seq<Byte>)
    requires forall i :: 0 <= i < |list| ==> Fits(list[i])
    requires |data| >= 4 + desclen && LengthOf(data[2], data[3]) == desclen
    requires data[4 + desclen..] == EncodeAll(list) + crc && |EncodeAll(list)| < 4096 && desclen < 4096
    ensures MapOf(data, 13 + desclen + |EncodeAll(list)|) == (Done, PidOf(data[0], data[1]), Meant(list))
  {
    hide PidOf, LengthOf, EncodeAll, Fits, StreamsFrom;
    LoopInvertsEncoding(data, 4 + desclen, list, crc);
  }

  /** Decoding a map section gives back what was encoded: the clock's PID, exactly
      the streams, and no bytes left. */
  lemma MapRoundTrip(hi: Byte, lo: Byte, lenHi: Byte, lenLo: Byte, desc: seq<Byte>, list: seq<Stream>, crc: seq<Byte>)
    requires hi & 0xe0 == 0 && LengthIs(lenHi, lenLo, |desc|) && |crc| == 4
    requires forall i :: 0 <= i < |list| ==> Fits(list[i])
    requires 9 + 4 + |desc| + |EncodeAll(list)| < 4096
    ensures MapOf(EncodeMap(hi, lo, lenHi, lenLo, desc, list, crc), 9 + 4 + |desc| + |EncodeAll(list)|)
         == (Done, hi as nat * 256 + lo as nat, Meant(list))
  {
    hide PidOf, LengthOf, LengthIs, EncodeAll, Fits, StreamsFrom, Less;
    var streams := EncodeAll(list);
    EncodedHead(hi, lo, lenHi, lenLo, desc, streams + crc);
    Associate([0xe0 | hi, lo, 0xf0 | lenHi, lenLo] + desc, streams, crc);
    MapAfterHead(EncodeMap(hi, lo, lenHi, lenLo, desc, list, crc), |desc|, list, crc);
  }
}
