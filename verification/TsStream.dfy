/**
 The stream object of the transport stream parser: its PID list and its table
 list grow in place while sections are decoded.
 */
module TsStream {
  import opened Common
  import opened Circular
  import opened TsRegistry

  /** The program's PID is registered for sections, and if it is a program it has its
      map table. */
  predicate KnownIn(ts: seq<Table>, ps: seq<PidInfo>, p: Program) {
    && PidIndex(ps, p.pid).Some? && RecordOf(ps, p.pid).pidtype.Sections? && RecordOf(ps, p.pid).defined
    && (p.number != 0 ==> TableIndex(ts, PMT_ID, p.pid).Some?)
  }

  class Stream {
    const types: Byte -> (PidType, nat)
    var pids: seq<PidInfo>
    var tables: seq<Table>

    /** Each PID is registered once and each map table lists a PID once. */
    ghost predicate Valid()
      reads this
    {
      UniquePids(pids) && forall t :: 0 <= t < |tables| ==> NoDuplicates(tables[t].es)
    }

    constructor (types: Byte -> (PidType, nat))
      ensures Valid() && pids == [] && tables == [] && this.types == types
    {
      this.types := types;
      pids, tables := [], [];
    }

    method PidGet(pid: nat) returns (r: Option<nat>)
      ensures r == PidIndex(pids, pid)
    {
      var c := 0;
      while c < |pids|
        invariant c <= |pids| && forall i :: 0 <= i < c ==> pids[i].pid != pid
      {
        if pids[c].pid == pid {
          return Some(c);
        }
        c := c + 1;
      }
      r := None;
    }

    method TableGet(id: Byte, pid: nat) returns (r: Option<nat>)
      ensures r == TableIndex(tables, id, pid)
    {
      var c := 0;
      while c < |tables|
        invariant c <= |tables| && forall i :: 0 <= i < c ==> !(tables[i].id == id && tables[i].pid == pid)
      {
        if id == tables[c].id {
          if pid == tables[c].pid {
            return Some(c);
          }
        }
        c := c + 1;
      }
      r := None;
    }

    /** Look a PID up and register it if it is new. */
    method Register(pid: nat) returns (i: nat)
      modifies `pids
      ensures pids == Registered(old(pids), pid)
      ensures PidIndex(pids, pid) == Some(i)
    {
      var r := PidGet(pid);
      if r.Some? {
        i := r.value;
      } else {
        i := |pids|;
        pids := pids + [NewPid(pid)];
      }
    }

    method AddPid(t: nat, pid: nat)
      requires t < |tables|
      modifies `tables
      ensures tables == old(tables)[t := old(tables)[t].(es := AddEs(old(tables)[t].es, pid))]
    {
      var c, es := 0, tables[t].es;
      while c < |es|
        invariant c <= |es| && forall i :: 0 <= i < c ==> es[i] != pid
      {
        if es[c] == pid {
          return;
        }
        c := c + 1;
      }
      tables := tables[t := tables[t].(es := es + [pid])];
    }

    /** The head of `ts__table_decode`: find or make the entry for a section. */
    method TableDecode(id: Byte, pid: nat, version: Byte) returns (t: Option<nat>)
      requires Valid()
      modifies `tables
      ensures Valid() && (tables, t) == SectionAdded(old(tables), id, pid, version)
    {
      var entry := Table(id, pid, version, false, 0, []);
      var r := TableGet(id, pid);
      if r.Some? {
        var tp := tables[r.value];
        entry := entry.(progid := tp.progid);
        if tp.expected {
          tables := tables[r.value := entry];
          return r;
        }
        if tp.version == version {
          return None;
        }
      }
      t := Some(|tables|);
      tables := tables + [entry];
    }

    /** `ts__pmt_decode` into table entry t. */
    method PmtDecode(data: seq<Byte>, seclen: nat, pmtpid: nat, t: nat) returns (o: Outcome)
      requires Valid() && t < |tables| && |data| >= 4 && seclen < SIZE_T
      modifies this
      ensures Valid()
      ensures var (outcome, clock, list) := MapOf(data, seclen);
              && o == outcome
              && pids == AllStreamPids(types, ClockPids(old(pids), pmtpid, clock), pmtpid, list)
              && tables == old(tables)[t := old(tables)[t].(es := AllEs(AddEs(old(tables)[t].es, clock), list))]
    {
      hide ClockPids, AllStreamPids, AllEs, AddEs, StreamsFrom, PidOf, LengthOf, Less, UniquePids;
      Uniqueness(pids, pmtpid, PidOf(data[0], data[1]), tables[t].es, MapOf(data, seclen).2);
      ClockFound(PidOf(data[0], data[1]), pmtpid, t);
      var desclen := LengthOf(data[2], data[3]);
      o := StreamLoop(data, 4 + desclen, Less(Less(Less(seclen, 9), 4), desclen), pmtpid, t);
    }

    method StreamLoop(data: seq<Byte>, start: nat, count: nat, pmtpid: nat, t: nat) returns (o: Outcome)
      requires t < |tables| && count < SIZE_T
      modifies this
      ensures o == StreamsFrom(data, start, count).0
      ensures pids == AllStreamPids(types, old(pids), pmtpid, StreamsFrom(data, start, count).1)
      ensures tables == old(tables)[t := old(tables)[t].(es := AllEs(old(tables)[t].es, StreamsFrom(data, start, count).1))]
    {
      hide StreamPids, AddEs, PidOf, LengthOf, StreamsFrom, AllStreamPids, AllEs, Less;
      NoneYet(pids, pmtpid, tables[t].es);
      ghost var list := StreamsFrom(data, start, count).1;
      var at, left := start, count;
      ghost var seen: seq<Es> := [];
      assert tables == tables[t := tables[t].(es := AllEs(tables[t].es, []))];
      while left != 0
        invariant 0 <= left < SIZE_T
        invariant StreamsFrom(data, start, count).0 == StreamsFrom(data, at, left).0
        invariant list == seen + StreamsFrom(data, at, left).1
        invariant pids == AllStreamPids(types, old(pids), pmtpid, seen)
        invariant tables == old(tables)[t := old(tables)[t].(es := AllEs(old(tables)[t].es, seen))]
        decreases |data| - at
      {
        LoopTurn(data, at, left);
        if at + 5 > |data| {
          assert list == seen + [] == seen;
          return Overrun;
        }
        var es := Es(data[at], PidOf(data[at + 1], data[at + 2]));
        var infolen := LengthOf(data[at + 3], data[at + 4]);
        left := Less(left, 5);
        StreamFound(es, pmtpid, t);
        Appended(old(pids), pmtpid, old(tables)[t].es, seen, es);
        seen := seen + [es];
        if infolen > left {
          return TooLong;
        }
        at := at + 5 + infolen;
        left := left - infolen;
      }
      LoopTurn(data, at, left);
      assert list == seen + [] == seen;
      o := Done;
    }

    lemma LoopTurn(data: seq<Byte>, at: nat, left: nat)
      requires left < SIZE_T
      ensures left == 0 ==> StreamsFrom(data, at, left) == (Done, [])
      ensures left != 0 && at + 5 > |data| ==> StreamsFrom(data, at, left) == (Overrun, [])
      ensures left != 0 && at + 5 <= |data| ==>
        var es := Es(data[at], PidOf(data[at + 1], data[at + 2]));
        var infolen := LengthOf(data[at + 3], data[at + 4]);
        if infolen > Less(left, 5) then StreamsFrom(data, at, left) == (TooLong, [es])
        else var (o, rest) := StreamsFrom(data, at + 5 + infolen, Less(left, 5) - infolen);
             StreamsFrom(data, at, left) == (o, [es] + rest)
    {
    }

    lemma NoneYet(p: seq<PidInfo>, pmtpid: nat, es: seq<nat>)
      ensures AllStreamPids(types, p, pmtpid, []) == p && AllEs(es, []) == es
    {
    }

    method ClockFound(pid: nat, pmtpid: nat, t: nat)
      requires t < |tables|
      modifies this
      ensures pids == ClockPids(old(pids), pmtpid, pid)
      ensures tables == old(tables)[t := old(tables)[t].(es := AddEs(old(tables)[t].es, pid))]
    {
      var i := Register(pid);
      var info := pids[i];
      if info.pidtype.Unspec? || pmtpid != info.pmtpid {
        info := Reset(info).(pidtype := PesData, subtype := PST_SI);
      }
      pids := pids[i := info.(defined := true, pcr := true, pmtpid := pmtpid)];
      AddPid(t, pid);
    }

    method StreamFound(es: Es, pmtpid: nat, t: nat)
      requires t < |tables|
      modifies this
      ensures pids == StreamPids(types, old(pids), pmtpid, es)
      ensures tables == old(tables)[t := old(tables)[t].(es := AddEs(old(tables)[t].es, es.pid))]
    {
      var (ptype, subtype) := types(es.stype);
      var i := Register(es.pid);
      var info := pids[i];
      if (ptype != info.pidtype && info.pidtype != Unspec) || pmtpid != info.pmtpid {
        info := Reset(info);
      }
      pids := pids[i := info.(defined := true, stype := es.stype, pidtype := ptype, subtype := subtype,
                              pmtpid := pmtpid)];
      AddPid(t, es.pid);
    }

    lemma Appended(p: seq<PidInfo>, pmtpid: nat, es: seq<nat>, seen: seq<Es>, next: Es)
      ensures AllStreamPids(types, p, pmtpid, seen + [next])
           == StreamPids(types, AllStreamPids(types, p, pmtpid, seen), pmtpid, next)
      ensures AllEs(es, seen + [next]) == AddEs(AllEs(es, seen), next.pid)
    {
      assert (seen + [next])[..|seen|] == seen;
    }

    lemma Uniqueness(p: seq<PidInfo>, pmtpid: nat, clock: nat, es: seq<nat>, list: seq<Es>)
      requires UniquePids(p) && NoDuplicates(es)
      ensures UniquePids(AllStreamPids(types, ClockPids(p, pmtpid, clock), pmtpid, list))
      ensures NoDuplicates(AllEs(AddEs(es, clock), list))
    {
      ClockKeepsUnique(p, pmtpid, clock);
      StreamsKeepUnique(types, ClockPids(p, pmtpid, clock), pmtpid, AddEs(es, clock), list);
    }

    lemma ClockKeepsUnique(p: seq<PidInfo>, pmtpid: nat, clock: nat)
      requires UniquePids(p)
      ensures UniquePids(ClockPids(p, pmtpid, clock))
    {
      var q := Registered(p, clock);
      var info := RecordOf(q, clock);
      RegisteringKeepsUnique(p, clock, info);
      var base := if info.pidtype.Unspec? || pmtpid != info.pmtpid
                  then Reset(info).(pidtype := PesData, subtype := PST_SI) else info;
      RegisteringKeepsUnique(q, clock, base.(defined := true, pcr := true, pmtpid := pmtpid));
    }

    /** `ts__pat_decode`: afterwards every PID the section names is registered for
        sections and every program has its map table, received or expected, and still
        only one if it was so before. */
    method PatDecode(data: seq<Byte>, seclen: nat) returns (o: Outcome)
      requires Valid() && seclen < SIZE_T
      modifies this
      ensures Valid() && (old(UniqueTables(tables, PMT_ID)) ==> UniqueTables(tables, PMT_ID))
      ensures var (outcome, programs) := ProgramsFrom(data, 0, Less(seclen, 9) / 4);
              o == outcome && forall i :: 0 <= i < |programs| ==> Known(programs[i])
      ensures forall pid :: PidIndex(old(pids), pid).Some? ==> PidIndex(pids, pid).Some?
      ensures forall pid :: TableIndex(old(tables), PMT_ID, pid).Some? ==> TableIndex(tables, PMT_ID, pid).Some?
    {
      hide ProgramTables, ProgramPids, UniquePids, UniqueTables, ProgramsFrom, PidOf, Less, KnownIn, PidIndex, TableIndex;
      ghost var programs := ProgramsFrom(data, 0, Less(seclen, 9) / 4).1;
      var at, left := 0, Less(seclen, 9) / 4;
      ghost var seen: seq<Program> := [];
      while left != 0
        invariant 0 <= left && Valid()
        invariant old(UniqueTables(tables, PMT_ID)) ==> UniqueTables(tables, PMT_ID)
        invariant ProgramsFrom(data, 0, Less(seclen, 9) / 4).0 == ProgramsFrom(data, at, left).0
        invariant programs == seen + ProgramsFrom(data, at, left).1
        invariant forall i :: 0 <= i < |seen| ==> Known(seen[i])
        invariant forall pid :: PidIndex(old(pids), pid).Some? ==> PidIndex(pids, pid).Some?
        invariant forall pid :: TableIndex(old(tables), PMT_ID, pid).Some? ==> TableIndex(tables, PMT_ID, pid).Some?
        decreases left
      {
        ProgramTurn(data, at, left);
        if at + 4 > |data| {
          assert programs == seen + [] == seen;
          return Overrun;
        }
        var p := Program(data[at] as nat * 256 + data[at + 1] as nat, PidOf(data[at + 2], data[at + 3]));
        ProgramKeepsUnique(tables, pids, p);
        ProgramKeepsOthers(tables, pids, p);
        NextKnown(tables, pids, p, seen);
        ProgramFound(p);
        seen := seen + [p];
        at, left := at + 4, left - 1;
      }
      ProgramTurn(data, at, left);
      assert programs == seen + [] == seen;
      o := Done;
    }

    lemma ProgramTurn(data: seq<Byte>, at: nat, left: nat)
      ensures left == 0 ==> ProgramsFrom(data, at, left) == (Done, [])
      ensures left != 0 && at + 4 > |data| ==> ProgramsFrom(data, at, left) == (Overrun, [])
      ensures left != 0 && at + 4 <= |data| ==>
        var p := Program(data[at] as nat * 256 + data[at + 1] as nat, PidOf(data[at + 2], data[at + 3]));
        var (o, rest) := ProgramsFrom(data, at + 4, left - 1);
        ProgramsFrom(data, at, left) == (o, [p] + rest)
    {
    }

    predicate Known(p: Program)
      reads this
    {
      KnownIn(tables, pids, p)
    }

    /** The programs known so far, and the next one, are known with the next entry. */
    lemma NextKnown(ts: seq<Table>, ps: seq<PidInfo>, p: Program, seen: seq<Program>)
      requires forall i :: 0 <= i < |seen| ==> KnownIn(ts, ps, seen[i])
      ensures forall i :: 0 <= i < |seen + [p]| ==> KnownIn(ProgramTables(ts, p), ProgramPids(ps, p), (seen + [p])[i])
    {
      hide ProgramTables, ProgramPids, PidIndex, TableIndex;
      ProgramIsRegistered(ts, ps, p);
      ProgramKeepsOthers(ts, ps, p);
    }

    method ProgramFound(p: Program)
      requires forall t :: 0 <= t < |tables| ==> NoDuplicates(tables[t].es)
      modifies this
      ensures tables == ProgramTables(old(tables), p) && pids == ProgramPids(old(pids), p)
      ensures forall t :: 0 <= t < |tables| ==> NoDuplicates(tables[t].es)
    {
      var r := TableGet(PMT_ID, p.pid);
      if r.None? {
        tables := tables + [Table(if p.number == 0 then NIT_ID else PMT_ID, p.pid, 0, true, p.number, [])];
      } else {
        tables := tables[r.value := tables[r.value].(progid := p.number)];
      }
      var i := Register(p.pid);
      var info := pids[i];
      if info.pidtype !in {Sections, Unspec} {
        info := Reset(info);
      }
      pids := pids[i := info.(pidtype := Sections, subtype := if p.number == 0 then PST_NI else PST_SI,
                              defined := true)];
    }

    lemma ProgramKeepsOthers(ts: seq<Table>, ps: seq<PidInfo>, p: Program)
      ensures |ProgramTables(ts, p)| >= |ts| && |ProgramPids(ps, p)| >= |ps|
      ensures PidIndex(ProgramPids(ps, p), p.pid).Some?
      ensures p.number != 0 ==> TableIndex(ProgramTables(ts, p), PMT_ID, p.pid).Some?
      ensures forall pid :: PidIndex(ps, pid).Some? ==> PidIndex(ProgramPids(ps, p), pid).Some?
      ensures forall pid :: TableIndex(ts, PMT_ID, pid).Some? ==> TableIndex(ProgramTables(ts, p), PMT_ID, pid).Some?
    {
      forall pid | PidIndex(ps, pid).Some?
        ensures PidIndex(ProgramPids(ps, p), pid).Some?
      {
        var i := PidIndex(ps, pid).value;
        assert ProgramPids(ps, p)[i].pid == pid;
      }
      var q := Registered(ps, p.pid);
      assert ProgramPids(ps, p)[PidIndex(q, p.pid).value].pid == p.pid;
      var r := ProgramTables(ts, p);
      forall pid | TableIndex(ts, PMT_ID, pid).Some?
        ensures TableIndex(r, PMT_ID, pid).Some?
      {
        var i := TableIndex(ts, PMT_ID, pid).value;
        assert r[i].id == PMT_ID && r[i].pid == pid;
      }
      if p.number != 0 && TableIndex(ts, PMT_ID, p.pid).None? {
        assert r[|ts|].id == PMT_ID && r[|ts|].pid == p.pid;
      }
    }
  }
}
