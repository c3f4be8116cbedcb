/** Process accounting: process/measure.go. */
module Accounting {
  import opened Collections
  import opened Sorting

  /** Process identifiers, which accounting only compares. */
  datatype ProcId = ProcId(pid: int)

  datatype Measurement = Measurement(pid: ProcId, total: int)

  type Table = map<ProcId, Measurement>

  datatype ProcStats = ProcStats(count: nat, active: nat, execed: nat, exited: nat, cpu: int)

  /** Nothing to compare with yet; an index panic when no process was active; or a report. */
  datatype Outcome = NotYet | Panics | Report(ps: ProcStats, ms: seq<Measurement>)

  // ---------------------------------------------------------------- specification

  ghost predicate ValidTable(tb: Table) {
    forall p :: p in tb ==> tb[p].pid == p && tb[p].total >= 0
  }

  /** A process is active when it is new, or used CPU since the previous table. */
  predicate Active(ptb: Table, tb: Table, p: ProcId) {
    p in tb && (p in ptb ==> tb[p].total > ptb[p].total)
  }

  function CpuOf(ptb: Table, tb: Table, p: ProcId): int
    requires p in tb
  {
    if p in ptb then tb[p].total - ptb[p].total else tb[p].total
  }

  /** The CPU time used by each active process among some. */
  function UsedBy(ptb: Table, tb: Table, pids: set<ProcId>): map<ProcId, int> {
    map p | p in tb && p in pids && Active(ptb, tb, p) :: CpuOf(ptb, tb, p)
  }

  /** The CPU time used by each active process. */
  function Used(ptb: Table, tb: Table): map<ProcId, int> {
    UsedBy(ptb, tb, tb.Keys)
  }

  ghost function Total(used: map<ProcId, int>): int {
    if used == map[] then 0
    else
      var p :| p in used;
      used[p] + Total(used - {p})
  }

  /** The active processes that used at least as much as `cpu`. */
  ghost function AtLeast<T>(used: map<T, int>, cpu: int): set<T> {
    set p | p in used && used[p] >= cpu
  }

  /** The processes to report: at most `top` processes used as much; when there are not more than `top`
      active processes at all, those that used more than some other one. */
  ghost predicate Selected(used: map<ProcId, int>, top: nat, p: ProcId) {
    p in used &&
    if |used| > top then |AtLeast(used, used[p])| <= top else exists q :: q in used && used[q] < used[p]
  }

  ghost predicate DistinctPids(ms: seq<Measurement>) {
    forall i, j :: 0 <= i < j < |ms| ==> ms[i].pid != ms[j].pid
  }

  /** Reported last time, not among the new ones, and active again. */
  predicate Carried(ptb: Table, tb: Table, tops: set<ProcId>, m: Measurement) {
    m.pid !in tops && m.pid in tb && m.pid in ptb && tb[m.pid].total > ptb[m.pid].total
  }

  function CarryOver(ptb: Table, tb: Table, tops: set<ProcId>, pms: seq<Measurement>): seq<Measurement> {
    if pms == [] then []
    else
      var front := CarryOver(ptb, tb, tops, pms[..|pms|-1]);
      if Carried(ptb, tb, tops, pms[|pms|-1]) then front + [pms[|pms|-1]] else front
  }

  // ---------------------------------------------------------------- sums over a map

  lemma {:induction false} TotalOf(used: map<ProcId, int>, p: ProcId)
    requires p in used
    ensures Total(used) == used[p] + Total(used - {p})
    decreases |used|
  {
    var q :| q in used && Total(used) == used[q] + Total(used - {q});
    if q != p {
      TotalOf(used - {q}, p);
      TotalOf(used - {p}, q);
      assert used - {q} - {p} == used - {p} - {q};
    }
  }

  // ---------------------------------------------------------------- ranks in a sorted list

  function CountGe(s: seq<int>, c: int): nat {
    if s == [] then 0 else (if s[0] >= c then 1 else 0) + CountGe(s[1..], c)
  }

  lemma {:induction false} CountGeConcat(a: seq<int>, b: seq<int>, c: int)
    ensures CountGe(a + b, c) == CountGe(a, c) + CountGe(b, c)
  {
    if a == [] {
      assert a + b == b;
    } else {
      assert (a + b)[1..] == a[1..] + b;
      CountGeConcat(a[1..], b, c);
    }
  }

  lemma CountGeInsert(x: int, s: seq<int>, c: int)
    requires Sorted(s)
    ensures CountGe(Insert(x, s), c) == CountGe(s, c) + (if x >= c then 1 else 0)
  {
    var i := Position(x, s);
    CountGeConcat(s[..i] + [x], s[i..], c);
    CountGeConcat(s[..i], [x], c);
    CountGeConcat(s[..i], s[i..], c);
    assert s == s[..i] + s[i..];
    assert [x][1..] == [];
  }

  function Sum(s: seq<int>): int {
    if s == [] then 0 else Sum(s[..|s|-1]) + s[|s|-1]
  }

  /** The list sorted upwards: as long, with as many values from any bound up. */
  ghost predicate Ranked(sorted: seq<int>, cpus: seq<int>) {
    Sorted(sorted) && |sorted| == |cpus| && forall c :: CountGe(sorted, c) == CountGe(cpus, c)
  }

  lemma {:induction false} SortRanks(s: seq<int>)
    ensures Ranked(Sort(s), s)
  {
    if s != [] {
      SortRanks(s[1..]);
      forall c ensures CountGe(Sort(s), c) == CountGe(s, c) {
        CountGeInsert(s[0], Sort(s[1..]), c);
      }
    }
  }

  lemma {:induction false} CountGeFull(s: seq<int>, c: int)
    requires forall i :: 0 <= i < |s| ==> s[i] >= c
    ensures CountGe(s, c) == |s|
  {
    if s != [] {
      CountGeFull(s[1..], c);
    }
  }

  lemma {:induction false} CountGeNone(s: seq<int>, c: int)
    requires forall i :: 0 <= i < |s| ==> s[i] < c
    ensures CountGe(s, c) == 0
  {
    if s != [] {
      CountGeNone(s[1..], c);
    }
  }

  lemma {:induction false} CountGeBound(s: seq<int>, c: int)
    ensures CountGe(s, c) <= |s|
  {
    if s != [] {
      CountGeBound(s[1..], c);
    }
  }

  lemma CountGeSplit(s: seq<int>, k: nat, c: int)
    requires k <= |s|
    ensures CountGe(s, c) == CountGe(s[..k], c) + CountGe(s[k..], c)
  {
    assert s == s[..k] + s[k..];
    CountGeConcat(s[..k], s[k..], c);
  }

  lemma RankOfLarger(s: seq<int>, k: nat, c: int)
    requires Sorted(s) && k < |s| && c > s[k]
    ensures CountGe(s, c) <= |s| - k - 1
  {
    CountGeSplit(s, k + 1, c);
    CountGeNone(s[..k+1], c);
    CountGeBound(s[k+1..], c);
  }

  lemma RankOfSmaller(s: seq<int>, k: nat, c: int)
    requires Sorted(s) && k < |s| && c <= s[k]
    ensures CountGe(s, c) >= |s| - k
  {
    CountGeSplit(s, k, c);
    CountGeFull(s[k..], c);
  }

  /** In a list sorted upwards, a value exceeds the (top+1)-th largest exactly when at most `top` values reach it. */
  lemma RankAbove(s: seq<int>, top: nat, c: int)
    requires Sorted(s) && |s| > top
    ensures c > s[|s|-top-1] <==> CountGe(s, c) <= top
  {
    if c > s[|s|-top-1] {
      RankOfLarger(s, |s|-top-1, c);
    } else {
      RankOfSmaller(s, |s|-top-1, c);
    }
  }

  /** The list holds the values of the map, one per key. */
  ghost predicate ValuesOf(cpus: seq<int>, keys: seq<ProcId>, used: map<ProcId, int>) {
    && |cpus| == |keys| && Enumerates(keys, used.Keys)
    && forall i :: 0 <= i < |keys| ==> keys[i] in used && cpus[i] == used[keys[i]]
  }

  lemma {:induction false} SumIsTotal(cpus: seq<int>, keys: seq<ProcId>, used: map<ProcId, int>)
    requires ValuesOf(cpus, keys, used)
    ensures Sum(cpus) == Total(used)
    decreases |keys|
  {
    if keys == [] {
      assert used.Keys == {};
    } else {
      var front, p := keys[..|keys|-1], keys[|keys|-1];
      assert keys == front + [p];
      assert SetOf(keys) == SetOf(front) + {p};
      assert p !in SetOf(front);
      assert (used - {p}).Keys == SetOf(front);
      SumIsTotal(cpus[..|keys|-1], front, used - {p});
      TotalOf(used, p);
    }
  }

  ghost function ListedAtLeast<T>(keys: seq<T>, used: map<T, int>, cpu: int): set<T> {
    set p | p in keys && p in used && used[p] >= cpu
  }

  lemma {:induction false} CountListed<T>(cpus: seq<int>, keys: seq<T>, used: map<T, int>, c: int)
    requires |cpus| == |keys| && forall i :: 0 <= i < |keys| ==> keys[i] in used && cpus[i] == used[keys[i]]
    requires forall i, j :: 0 <= i < j < |keys| ==> keys[i] != keys[j]
    ensures CountGe(cpus, c) == |ListedAtLeast(keys, used, c)|
    decreases |keys|
  {
    if keys == [] {
      assert ListedAtLeast(keys, used, c) == {};
    } else {
      var rest := ListedAtLeast(keys[1..], used, c);
      CountListed(cpus[1..], keys[1..], used, c);
      assert keys == [keys[0]] + keys[1..];
      assert ListedAtLeast(keys, used, c) == if cpus[0] >= c then rest + {keys[0]} else rest;
    }
  }

  lemma ListedIsAll<T>(keys: seq<T>, used: map<T, int>, c: int)
    requires Enumerates(keys, used.Keys)
    ensures ListedAtLeast(keys, used, c) == AtLeast(used, c)
  {
    forall p ensures p in keys <==> p in used {
      assert p in keys <==> p in SetOf(keys);
    }
  }

  lemma CountIsSize(cpus: seq<int>, keys: seq<ProcId>, used: map<ProcId, int>, c: int)
    requires ValuesOf(cpus, keys, used)
    ensures CountGe(cpus, c) == |AtLeast(used, c)| && |cpus| == |used|
  {
    CountListed(cpus, keys, used, c);
    EnumeratesSize(keys, used.Keys);
    ListedIsAll(keys, used, c);
  }

  function MinCpu(sorted: seq<int>, top: nat): int
    requires sorted != []
  {
    if |sorted| > top then sorted[|sorted|-top-1] else sorted[0]
  }

  /** The least value reaches a bound exactly when all values do. */
  lemma RankOfLeast(s: seq<int>, c: int)
    requires Sorted(s) && s != []
    ensures s[0] >= c <==> CountGe(s, c) == |s|
  {
    if s[0] >= c {
      CountGeFull(s, c);
    } else {
      RankOfLarger(s, 0, c);
    }
  }

  lemma AllAtLeast(used: map<ProcId, int>, c: int)
    ensures |AtLeast(used, c)| == |used| <==> forall q :: q in used ==> used[q] >= c
  {
    assert |used| == |used.Keys|;
    if exists q :: q in used && used[q] < c {
      var q :| q in used && used[q] < c;
      SubsetSize(AtLeast(used, c), used.Keys - {q});
    } else {
      assert AtLeast(used, c) == used.Keys;
    }
  }

  lemma SubsetSize(a: set<ProcId>, b: set<ProcId>)
    requires a <= b
    ensures |a| <= |b|
  {
    assert b == a + (b - a);
  }

  /** The threshold taken from the sorted list selects exactly the processes it should. */
  lemma ThresholdSelects(sorted: seq<int>, cpus: seq<int>, keys: seq<ProcId>, used: map<ProcId, int>, top: nat, p: ProcId)
    requires ValuesOf(cpus, keys, used) && Ranked(sorted, cpus) && sorted != [] && p in used
    ensures used[p] > MinCpu(sorted, top) <==> Selected(used, top, p)
  {
    CountIsSize(cpus, keys, used, used[p]);
    if |sorted| > top {
      RankAbove(sorted, top, used[p]);
    } else {
      RankOfLeast(sorted, used[p]);
      AllAtLeast(used, used[p]);
    }
  }

  // ---------------------------------------------------------------- what the selection promises

  lemma AtLeastFewer(used: map<ProcId, int>, p: ProcId, q: ProcId)
    requires p in used && q in used && used[p] <= used[q]
    ensures |AtLeast(used, used[q])| <= |AtLeast(used, used[p])|
  {
    SubsetSize(AtLeast(used, used[q]), AtLeast(used, used[p]));
  }

  lemma SelectedUpward(used: map<ProcId, int>, top: nat, p: ProcId, q: ProcId)
    requires Selected(used, top, p) && q in used && used[p] <= used[q]
    ensures Selected(used, top, q)
  {
    AtLeastFewer(used, p, q);
  }

  /** A selected process used strictly more CPU than an active one that was not selected. */
  lemma SelectedUsedMore(used: map<ProcId, int>, top: nat, p: ProcId, q: ProcId)
    requires Selected(used, top, p) && q in used && !Selected(used, top, q)
    ensures used[p] > used[q]
  {
    if used[p] <= used[q] {
      SelectedUpward(used, top, p, q);
      assert false;
    }
  }

  /** At most `top` processes are selected. */
  lemma SelectedAtMostTop(used: map<ProcId, int>, top: nat, selected: set<ProcId>)
    requires used != map[] && selected == (set p | p in used && Selected(used, top, p))
    ensures |selected| <= top
  {
    assert |used| == |used.Keys|;
    if selected != {} {
      var p := LeastUsed(used, selected);
      if |used| > top {
        SubsetSize(selected, AtLeast(used, used[p]));
      } else {
        var q :| q in used && used[q] < used[p];
        SubsetSize(selected, used.Keys - {q});
      }
    }
  }

  /** When the active processes that reach some value are just `top`, they are the ones selected. */
  lemma SelectedIsTop(used: map<ProcId, int>, top: nat, c: int, p: ProcId)
    requires |used| > top && |AtLeast(used, c)| == top && p in used
    ensures Selected(used, top, p) <==> used[p] >= c
  {
    if used[p] >= c {
      SubsetSize(AtLeast(used, used[p]), AtLeast(used, c));
    } else {
      assert p !in AtLeast(used, c);
      SubsetSize(AtLeast(used, c) + {p}, AtLeast(used, used[p]));
    }
  }

  lemma {:induction false} LeastUsed(used: map<ProcId, int>, pids: set<ProcId>) returns (p: ProcId)
    requires pids <= used.Keys && pids != {}
    ensures p in pids && forall q :: q in pids ==> used[p] <= used[q]
    decreases pids
  {
    p :| p in pids;
    if pids == {p} {
    } else {
      var q := LeastUsed(used, pids - {p});
      if used[q] < used[p] {
        p := q;
      }
    }
  }

  // ---------------------------------------------------------------- in terms of the two tables

  /** The accumulated CPU times of some processes. */
  function Totals(tb: Table, pids: set<ProcId>): map<ProcId, int> {
    map p | p in tb && p in pids :: tb[p].total
  }

  /** The processes in both tables whose accumulated CPU time went down, and by how much. */
  function Fallen(ptb: Table, tb: Table, pids: set<ProcId>): map<ProcId, int> {
    map p | p in tb && p in ptb && p in pids && tb[p].total < ptb[p].total :: ptb[p].total - tb[p].total
  }

  ghost predicate NoneFell(ptb: Table, tb: Table) {
    forall p :: p in ptb && p in tb ==> ptb[p].total <= tb[p].total
  }

  lemma TotalMore(used: map<ProcId, int>, p: ProcId, x: int)
    requires p !in used
    ensures Total(used[p := x]) == Total(used) + x
  {
    TotalOf(used[p := x], p);
    assert used[p := x] - {p} == used;
  }

  /** What the processes `pids` used, with what they had used before, is what they have used by now, but for those whose
      time went down. */
  lemma {:induction false} CpuBalance(ptb: Table, tb: Table, pids: set<ProcId>)
    requires pids <= tb.Keys
    ensures Total(UsedBy(ptb, tb, pids)) + Total(Totals(ptb, pids)) == Total(Totals(tb, pids)) + Total(Fallen(ptb, tb, pids))
    decreases pids
  {
    if pids == {} {
      assert UsedBy(ptb, tb, pids) == map[] && Totals(ptb, pids) == map[] && Totals(tb, pids) == map[] && Fallen(ptb, tb, pids) == map[];
    } else {
      var p :| p in pids;
      var rest := pids - {p};
      assert pids == rest + {p};
      CpuBalance(ptb, tb, rest);
      TotalsMore(tb, rest, p);
      TotalsMore(ptb, rest, p);
      OneBalance(ptb, tb, rest, p);
    }
  }

  lemma TotalsMore(tb: Table, rest: set<ProcId>, p: ProcId)
    requires p !in rest
    ensures Total(Totals(tb, rest + {p})) == Total(Totals(tb, rest)) + if p in tb then tb[p].total else 0
  {
    if p in tb {
      assert Totals(tb, rest + {p}) == Totals(tb, rest)[p := tb[p].total];
      TotalMore(Totals(tb, rest), p, tb[p].total);
    } else {
      assert Totals(tb, rest + {p}) == Totals(tb, rest);
    }
  }

  lemma OneBalance(ptb: Table, tb: Table, rest: set<ProcId>, p: ProcId)
    requires p in tb && p !in rest
    ensures Total(UsedBy(ptb, tb, rest + {p})) - Total(Fallen(ptb, tb, rest + {p}))
            == Total(UsedBy(ptb, tb, rest)) - Total(Fallen(ptb, tb, rest)) + tb[p].total - (if p in ptb then ptb[p].total else 0)
  {
    var used, fallen := UsedBy(ptb, tb, rest), Fallen(ptb, tb, rest);
    if p !in ptb || tb[p].total > ptb[p].total {
      var cpu := tb[p].total - (if p in ptb then ptb[p].total else 0);
      assert UsedBy(ptb, tb, rest + {p}) == used[p := cpu] && Fallen(ptb, tb, rest + {p}) == fallen;
      TotalMore(used, p, cpu);
    } else if tb[p].total < ptb[p].total {
      assert UsedBy(ptb, tb, rest + {p}) == used && Fallen(ptb, tb, rest + {p}) == fallen[p := ptb[p].total - tb[p].total];
      TotalMore(fallen, p, ptb[p].total - tb[p].total);
    } else {
      assert UsedBy(ptb, tb, rest + {p}) == used && Fallen(ptb, tb, rest + {p}) == fallen;
    }
  }

  lemma {:induction false} PositiveTotal(used: map<ProcId, int>)
    requires forall p :: p in used ==> used[p] > 0
    ensures Total(used) >= 0 && (Total(used) == 0 <==> used == map[])
    decreases |used|
  {
    if used != map[] {
      assert used.Keys != {};
      var p :| p in used;
      TotalOf(used, p);
      PositiveTotal(used - {p});
    }
  }

  /** The CPU time reported, with the time the surviving processes had used before, is the time that all processes have
      used by now, if and only if the time of none went down. */
  lemma CpuAddsUp(ptb: Table, tb: Table)
    ensures Total(Used(ptb, tb)) + Total(Totals(ptb, tb.Keys)) == Total(Totals(tb, tb.Keys)) <==> NoneFell(ptb, tb)
  {
    CpuBalance(ptb, tb, tb.Keys);
    var fallen := Fallen(ptb, tb, tb.Keys);
    PositiveTotal(fallen);
    assert NoneFell(ptb, tb) ==> fallen == map[];
    if fallen == map[] {
      forall p | p in ptb && p in tb ensures ptb[p].total <= tb[p].total {
        assert p !in fallen;
      }
    }
  }

  /** A process selected gained more CPU time, a new one all of its own, than any other active one. */
  lemma SelectedGainedMore(ptb: Table, tb: Table, top: nat, p: ProcId, q: ProcId)
    requires Selected(Used(ptb, tb), top, p) && !Selected(Used(ptb, tb), top, q)
    requires q in tb && (q in ptb ==> tb[q].total > ptb[q].total)
    ensures p in tb && (p in ptb ==> tb[p].total > ptb[p].total)
    ensures p in ptb && q in ptb ==> tb[p].total - ptb[p].total > tb[q].total - ptb[q].total
    ensures p in ptb && q !in ptb ==> tb[p].total - ptb[p].total > tb[q].total
    ensures p !in ptb && q in ptb ==> tb[p].total > tb[q].total - ptb[q].total
    ensures p !in ptb && q !in ptb ==> tb[p].total > tb[q].total
  {
    SelectedUsedMore(Used(ptb, tb), top, p, q);
  }
}
