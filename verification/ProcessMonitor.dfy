/** The state kept between measurements, and one measurement: process/measure.go. */
module ProcessMonitor {
  import opened Collections
  import opened Accounting
  import opened Sorting

  class Monitor {
    const top: nat
    var procs: Table
    var prevProcs: Table
    var pms: seq<Measurement>
    var clMap: set<ProcId> // the pids whose command lines are cached

    /** Holds after every measurement of every run that has not panicked. */
    ghost predicate Valid()
      reads this
    {
      && ValidTable(procs)
      && clMap <= procs.Keys
      && DistinctPids(pms)
    }

    constructor (top: nat)
      ensures Valid() && this.top == top && procs == map[] && pms == []
    {
      this.top := top;
      procs, prevProcs, pms, clMap := map[], map[], [], {};
    }

    /** `tb` is the new process table, and `cached` the processes in it whose command lines were looked up. */
    method Measure(tb: Table, cached: set<ProcId>) returns (r: Outcome, ghost order: seq<ProcId>)
      requires Valid() && ValidTable(tb) && cached <= tb.Keys
      modifies this
      ensures procs == tb && prevProcs == old(procs)
      ensures r == NotYet <==> old(procs) == map[]
      ensures r == Panics <==> old(procs) != map[] && Used(old(procs), tb) == map[]
      ensures r != Panics ==> Valid()
      ensures !r.Report? ==> pms == old(pms)
      ensures clMap == old(clMap) + cached - (if r.Report? then old(procs).Keys - tb.Keys else {})
      // the process statistics
      ensures r.Report? ==> IsStats(old(procs), tb, r.ps)
      // the report: the selected processes, then those carried over from the last report
      ensures r.Report? ==> pms == r.ms && IsReport(old(procs), tb, top, old(pms), order, r.ms)
    {
      prevProcs := procs;
      procs := tb;
      clMap := clMap + cached;
      order := [];
      if |prevProcs| == 0 {
        assert prevProcs.Keys == {};
        return NotYet, [];
      }
      var exited;
      r, exited, order := Account();
      Forget(exited);
    }

    /** Drops the command lines of the processes that are gone. */
    method Forget(exited: set<ProcId>)
      modifies this`clMap
      ensures clMap == old(clMap) - exited
    {
      clMap := clMap - exited;
    }

    /** The rest of the measurement, once there are two tables. */
    method Account() returns (r: Outcome, exited: set<ProcId>, ghost order: seq<ProcId>)
      requires ValidTable(procs) && DistinctPids(pms)
      modifies this`pms
      ensures r != NotYet && (r == Panics <==> Used(prevProcs, procs) == map[])
      ensures r == Panics ==> pms == old(pms) && exited == {}
      ensures r != Panics ==> IsStats(prevProcs, procs, r.ps) && exited == prevProcs.Keys - procs.Keys
      ensures r != Panics ==> pms == r.ms && IsReport(prevProcs, procs, top, old(pms), order, r.ms) && DistinctPids(pms)
    {
      order := [];
      var diffCPU, cpus, active, execed, total;
      ghost var keys;
      diffCPU, cpus, active, execed, exited, total, keys := Compare(prevProcs, procs);
      EnumeratesSize(keys, diffCPU.Keys);
      if |cpus| == 0 {
        assert diffCPU.Keys == {};
        return Panics, {}, [];
      }
      var ms;
      ms, order := Pick(prevProcs, procs, diffCPU, cpus, keys);
      pms := ms;
      SumIsTotal(cpus, keys, diffCPU);
      Stats(prevProcs, procs, ProcStats(|procs|, active, execed, |exited|, total));
      r := Report(ProcStats(|procs|, active, execed, |exited|, total), ms);
    }

    /** The report: processes above the threshold, then those of the last report that were active again. */
    method Pick(ptb: Table, tb: Table, diffCPU: map<ProcId, int>, cpus: seq<int>, ghost keys: seq<ProcId>)
      returns (ms: seq<Measurement>, ghost order: seq<ProcId>)
      requires ValidTable(tb) && DistinctPids(pms)
      requires diffCPU == Used(ptb, tb) && ValuesOf(cpus, keys, diffCPU) && cpus != []
      ensures IsReport(ptb, tb, top, pms, order, ms) && DistinctPids(ms)
    {
      var sorted := SortCpus(cpus);
      var minCPU;
      if |sorted| > top {
        minCPU := sorted[|sorted|-top-1];
      } else {
        minCPU := sorted[0];
      }
      var tops;
      ms, tops, order := Select(tb, diffCPU, minCPU);
      AboveIsSelected(sorted, cpus, keys, diffCPU, top);
      var carried := Carry(ptb, tb, tops, pms);
      ReportDistinct(ptb, tb, order, tops, pms);
      ms := ms + carried;
    }

    method SortCpus(cpus: seq<int>) returns (sorted: seq<int>)
      ensures Ranked(sorted, cpus)
    {
      sorted := Sort(cpus);
      SortRanks(cpus);
    }

    /** Ranges over the new table and compares it with the previous one. */
    method Compare(ptb: Table, tb: Table)
      returns (diffCPU: map<ProcId, int>, cpus: seq<int>, active: nat, execed: nat, exited: set<ProcId>, total: int, ghost keys: seq<ProcId>)
      ensures Compared(ptb, tb, tb.Keys, diffCPU, cpus, keys, active, total)
      ensures Changed(ptb.Keys, tb.Keys, execed, exited)
    {
      exited := ptb.Keys;
      diffCPU, cpus, active, execed, total, keys := map[], [], 0, 0, 0, [];
      var done: set<ProcId> := {};
      ComparedNothing(ptb, tb);
      while done != tb.Keys
        invariant done <= tb.Keys
        invariant Compared(ptb, tb, done, diffCPU, cpus, keys, active, total)
        invariant Changed(ptb.Keys, done, execed, exited)
        decreases tb.Keys - done
      {
        var pid := Next(tb.Keys, done);
        diffCPU, cpus, active, total, keys := Tally(ptb, tb, pid, diffCPU, cpus, active, total, done, keys);
        ChangedMore(ptb.Keys, done, pid, execed, exited);
        if pid in ptb {
          exited := exited - {pid};
        } else {
          execed := execed + 1;
        }
        done := done + {pid};
      }
    }

    /** Counts a process that is new or used CPU. */
    method Tally(ptb: Table, tb: Table, pid: ProcId, diffCPU: map<ProcId, int>, cpus: seq<int>, active: nat, total: int, ghost done: set<ProcId>, ghost keys: seq<ProcId>)
      returns (diffCPU': map<ProcId, int>, cpus': seq<int>, active': nat, total': int, ghost keys': seq<ProcId>)
      requires Compared(ptb, tb, done, diffCPU, cpus, keys, active, total) && pid in tb && pid !in done
      ensures Compared(ptb, tb, done + {pid}, diffCPU', cpus', keys', active', total')
    {
      CompareOne(ptb, tb, done, diffCPU, cpus, keys, active, total, pid);
      diffCPU', cpus', active', total', keys' := diffCPU, cpus, active, total, keys;
      if pid in ptb {
        var diff := tb[pid].total - ptb[pid].total;
        if diff > 0 {
          diffCPU', cpus', active', total', keys' := diffCPU[pid := diff], cpus + [diff], active + 1, total + diff, keys + [pid];
        }
      } else {
        var cpu := tb[pid].total;
        diffCPU', cpus', active', total', keys' := diffCPU[pid := cpu], cpus + [cpu], active + 1, total + cpu, keys + [pid];
      }
    }

    /** Ranges over the active processes and picks those above the threshold. */
    method Select(tb: Table, diffCPU: map<ProcId, int>, minCPU: int) returns (ms: seq<Measurement>, tops: set<ProcId>, ghost order: seq<ProcId>)
      requires ValidTable(tb) && diffCPU.Keys <= tb.Keys
      ensures tops == (set p | p in diffCPU && diffCPU[p] > minCPU) && Enumerates(order, tops)
      ensures InTable(tb, order) && ms == MeasurementsOf(tb, order)
    {
      ms, tops, order := [], {}, [];
      var todo := diffCPU.Keys;
      while todo != {}
        invariant todo <= diffCPU.Keys
        invariant Enumerates(order, set p | p in diffCPU && p !in todo && diffCPU[p] > minCPU)
        invariant InTable(tb, order) && ms == MeasurementsOf(tb, order) && tops == SetOf(order)
      {
        var pid :| pid in todo;
        todo := todo - {pid};
        if diffCPU[pid] > minCPU {
          ghost var before := set p | p in diffCPU && p !in todo + {pid} && diffCPU[p] > minCPU;
          EnumeratesExtend(order, before, pid);
          assert MeasurementsOf(tb, order + [pid]) == MeasurementsOf(tb, order) + [tb[pid]];
          ms := ms + [tb[pid]];
          order := order + [pid];
          tops := tops + {tb[pid].pid};
        }
      }
    }

    /** The measurements of the last report that are reported again, unchanged. */
    method Carry(ptb: Table, tb: Table, tops: set<ProcId>, pms: seq<Measurement>) returns (ms: seq<Measurement>)
      ensures ms == CarryOver(ptb, tb, tops, pms)
    {
      ms := [];
      for i := 0 to |pms|
        invariant ms == CarryOver(ptb, tb, tops, pms[..i])
      {
        assert pms[..i+1][..i] == pms[..i];
        var m := pms[i];
        if m.pid in tops {
          continue;
        }
        if m.pid in tb && m.pid in ptb && tb[m.pid].total - ptb[m.pid].total > 0 {
          ms := ms + [m];
        }
      }
      assert pms[..|pms|] == pms;
    }
  }

  /** The process statistics of the time between two tables. */
  ghost predicate IsStats(ptb: Table, tb: Table, ps: ProcStats) {
    && ps.count == |ptb| + ps.execed - ps.exited == |tb|
    && ps.execed == |tb.Keys - ptb.Keys| && ps.exited == |ptb.Keys - tb.Keys|
    && ps.active == |Used(ptb, tb)| && ps.cpu == Total(Used(ptb, tb))
    && (ps.cpu + Total(Totals(ptb, tb.Keys)) == Total(Totals(tb, tb.Keys)) <==> NoneFell(ptb, tb))
  }

  lemma Stats(ptb: Table, tb: Table, ps: ProcStats)
    requires ps.count == |tb| && ps.execed == |tb.Keys - ptb.Keys| && ps.exited == |ptb.Keys - tb.Keys|
    requires ps.active == |Used(ptb, tb)| && ps.cpu == Total(Used(ptb, tb))
    ensures IsStats(ptb, tb, ps)
  {
    StatsAddUp(ptb, tb);
    CpuAddsUp(ptb, tb);
  }

  ghost function SelectedPids(used: map<ProcId, int>, top: nat): set<ProcId> {
    set p | p in used && Selected(used, top, p)
  }

  predicate InTable(tb: Table, order: seq<ProcId>) {
    forall i :: 0 <= i < |order| ==> order[i] in tb
  }

  /** A report: the measurements of the selected processes in some order, then those carried over. */
  ghost predicate IsReport(ptb: Table, tb: Table, top: nat, pms: seq<Measurement>, order: seq<ProcId>, ms: seq<Measurement>) {
    && Enumerates(order, SelectedPids(Used(ptb, tb), top))
    && InTable(tb, order)
    && ms == MeasurementsOf(tb, order) + CarryOver(ptb, tb, SelectedPids(Used(ptb, tb), top), pms)
  }

  lemma AboveIsSelected(sorted: seq<int>, cpus: seq<int>, keys: seq<ProcId>, used: map<ProcId, int>, top: nat)
    requires ValuesOf(cpus, keys, used) && Ranked(sorted, cpus) && sorted != []
    ensures (set p | p in used && used[p] > MinCpu(sorted, top)) == SelectedPids(used, top)
  {
    forall p | p in used
      ensures used[p] > MinCpu(sorted, top) <==> Selected(used, top, p)
    {
      ThresholdSelects(sorted, cpus, keys, used, top, p);
    }
  }

  /** The comparison of the tables over the processes `done`. */
  ghost predicate Compared(ptb: Table, tb: Table, done: set<ProcId>, diffCPU: map<ProcId, int>, cpus: seq<int>, keys: seq<ProcId>, active: nat, total: int) {
    && diffCPU == UsedBy(ptb, tb, done) && ValuesOf(cpus, keys, diffCPU)
    && active == |cpus| && total == Sum(cpus)
  }

  lemma ComparedNothing(ptb: Table, tb: Table)
    ensures Compared(ptb, tb, {}, map[], [], [], 0, 0)
  {
    assert UsedBy(ptb, tb, {}) == map[];
  }

  lemma CompareOne(ptb: Table, tb: Table, done: set<ProcId>, diffCPU: map<ProcId, int>, cpus: seq<int>, keys: seq<ProcId>, active: nat, total: int, p: ProcId)
    requires Compared(ptb, tb, done, diffCPU, cpus, keys, active, total) && p in tb && p !in done
    ensures var cpu := CpuOf(ptb, tb, p);
            if Active(ptb, tb, p)
            then Compared(ptb, tb, done + {p}, diffCPU[p := cpu], cpus + [cpu], keys + [p], active + 1, total + cpu)
            else Compared(ptb, tb, done + {p}, diffCPU, cpus, keys, active, total)
  {
    UsedByMore(ptb, tb, done, p);
    if Active(ptb, tb, p) {
      assert (cpus + [CpuOf(ptb, tb, p)])[..|cpus|] == cpus;
      OneMoreValue(cpus, keys, diffCPU, p, CpuOf(ptb, tb, p));
    }
  }

  /** Of the pids `now`, so many are new; of those `before`, these are missing. */
  ghost predicate Changed(before: set<ProcId>, now: set<ProcId>, execed: nat, exited: set<ProcId>) {
    execed == |now - before| && exited == before - now
  }

  lemma ChangedMore(before: set<ProcId>, done: set<ProcId>, x: ProcId, execed: nat, exited: set<ProcId>)
    requires x !in done && Changed(before, done, execed, exited)
    ensures x in before ==> Changed(before, done + {x}, execed, exited - {x})
    ensures x !in before ==> Changed(before, done + {x}, execed + 1, exited)
  {
    assert done + {x} - before == if x in before then done - before else done - before + {x};
  }

  /** The range over a table comes to another process. */
  method Next(all: set<ProcId>, done: set<ProcId>) returns (x: ProcId)
    requires done <= all && done != all
    ensures x in all && x !in done && done + {x} <= all && all - (done + {x}) < all - done
  {
    assert all == done + (all - done);
    assert all - done != {};
    x :| x in all - done;
  }

  lemma UsedByMore(ptb: Table, tb: Table, pids: set<ProcId>, p: ProcId)
    requires p in tb && p !in pids
    ensures p !in UsedBy(ptb, tb, pids)
    ensures UsedBy(ptb, tb, pids + {p}) ==
            if Active(ptb, tb, p) then UsedBy(ptb, tb, pids)[p := CpuOf(ptb, tb, p)] else UsedBy(ptb, tb, pids)
  {
  }

  function MeasurementsOf(tb: Table, order: seq<ProcId>): (r: seq<Measurement>)
    requires InTable(tb, order)
    ensures |r| == |order|
  {
    seq(|order|, i requires 0 <= i < |order| => tb[order[i]])
  }

  lemma OneMoreValue(cpus: seq<int>, keys: seq<ProcId>, used: map<ProcId, int>, p: ProcId, cpu: int)
    requires ValuesOf(cpus, keys, used) && p !in used
    ensures ValuesOf(cpus + [cpu], keys + [p], used[p := cpu])
  {
    EnumeratesExtend(keys, used.Keys, p);
    assert used[p := cpu].Keys == used.Keys + {p};
  }

  lemma StatsAddUp(ptb: Table, tb: Table)
    ensures |tb| == |ptb| + |tb.Keys - ptb.Keys| - |ptb.Keys - tb.Keys|
  {
    SizesDiffer(tb.Keys, ptb.Keys);
    assert |tb.Keys| == |tb| && |ptb.Keys| == |ptb|;
  }

  lemma SizesDiffer<T>(a: set<T>, b: set<T>)
    ensures |a| == |b| + |a - b| - |b - a|
  {
    assert a == (a - b) + (a * b) && b == (b - a) + (a * b);
  }

  lemma {:induction false} CarryOverSubset(ptb: Table, tb: Table, tops: set<ProcId>, pms: seq<Measurement>)
    requires DistinctPids(pms)
    ensures DistinctPids(CarryOver(ptb, tb, tops, pms))
    ensures forall m :: m in CarryOver(ptb, tb, tops, pms) ==> m in pms && Carried(ptb, tb, tops, m)
  {
    if pms != [] {
      var front, last := pms[..|pms|-1], pms[|pms|-1];
      CarryOverSubset(ptb, tb, tops, front);
      assert pms == front + [last];
      forall m | m in front ensures m.pid != last.pid {
        var i :| 0 <= i < |front| && front[i] == m;
        assert pms[i].pid != pms[|front|].pid;
      }
    }
  }

  /** No pid is reported twice. */
  lemma ReportDistinct(ptb: Table, tb: Table, order: seq<ProcId>, tops: set<ProcId>, pms: seq<Measurement>)
    requires ValidTable(tb) && Enumerates(order, tops) && InTable(tb, order) && DistinctPids(pms)
    ensures DistinctPids(MeasurementsOf(tb, order) + CarryOver(ptb, tb, tops, pms))
  {
    CarryOverSubset(ptb, tb, tops, pms);
    var a, b := MeasurementsOf(tb, order), CarryOver(ptb, tb, tops, pms);
    var all: seq<Measurement> := a + b;
    forall i, j | 0 <= i < j < |all| ensures all[i].pid != all[j].pid {
      if i < |a| <= j {
        assert order[i] in SetOf(order);
        assert b[j - |a|] in b;
      }
    }
  }

  /** Every process in a report is alive and used CPU since the previous measurement. */
  lemma ReportedUsedCpu(ptb: Table, tb: Table, top: nat, pms: seq<Measurement>, order: seq<ProcId>, ms: seq<Measurement>, m: Measurement)
    requires ValidTable(ptb) && ValidTable(tb) && DistinctPids(pms)
    requires IsReport(ptb, tb, top, pms, order, ms) && m in ms
    ensures m.pid in Used(ptb, tb) && Used(ptb, tb)[m.pid] > 0
  {
    var used := Used(ptb, tb);
    CarryOverSubset(ptb, tb, SelectedPids(used, top), pms);
    if m in MeasurementsOf(tb, order) {
      var i :| 0 <= i < |order| && MeasurementsOf(tb, order)[i] == m;
      assert order[i] in SetOf(order);
      SelectedPositive(used, top, m.pid);
    }
  }

  /** A report holds the measurements of the processes selected, as they are now, and of those in the last report, as they
      were then, that have gained CPU time again and are not selected; and no others. */
  lemma ReportedIff(ptb: Table, tb: Table, top: nat, pms: seq<Measurement>, order: seq<ProcId>, ms: seq<Measurement>, m: Measurement)
    requires ValidTable(tb) && DistinctPids(pms) && IsReport(ptb, tb, top, pms, order, ms)
    ensures m in ms <==>
            if Selected(Used(ptb, tb), top, m.pid) then m == tb[m.pid]
            else m in pms && m.pid in tb && m.pid in ptb && tb[m.pid].total > ptb[m.pid].total
  {
    var tops := SelectedPids(Used(ptb, tb), top);
    var news := MeasurementsOf(tb, order);
    CarryOverIff(ptb, tb, tops, pms, m);
    if m in news {
      var i :| 0 <= i < |order| && news[i] == m;
      assert order[i] in SetOf(order);
    }
    if m.pid in tops && m == tb[m.pid] {
      assert m.pid in SetOf(order);
      var i :| 0 <= i < |order| && order[i] == m.pid;
      assert news[i] == m;
    }
  }

  lemma {:induction false} CarryOverIff(ptb: Table, tb: Table, tops: set<ProcId>, pms: seq<Measurement>, m: Measurement)
    ensures m in CarryOver(ptb, tb, tops, pms) <==>
            m in pms && m.pid !in tops && m.pid in tb && m.pid in ptb && tb[m.pid].total > ptb[m.pid].total
  {
    if pms != [] {
      CarryOverIff(ptb, tb, tops, pms[..|pms|-1], m);
      assert pms == pms[..|pms|-1] + [pms[|pms|-1]];
    }
  }

  lemma SelectedPositive(used: map<ProcId, int>, top: nat, p: ProcId)
    requires Selected(used, top, p) && forall q :: q in used ==> used[q] >= 0
    ensures used[p] > 0
  {
    assert |used| == |used.Keys|;
    if used[p] == 0 {
      SubsetSize(used.Keys, AtLeast(used, used[p]));
      assert false;
    }
  }

  /** Two measurements of a host where nothing runs in between: the second fails. */
  method IdleHost(top: nat) returns (first: Outcome, second: Outcome)
    ensures first == NotYet && second == Panics
  {
    var tb := map[ProcId(1) := Measurement(ProcId(1), 5)];
    var monitor := new Monitor(top);
    ghost var order;
    first, order := monitor.Measure(tb, {});
    assert ProcId(1) in tb;
    assert Used(tb, tb) == map[];
    second, order := monitor.Measure(tb, {});
  }
}
