/** The range over the watch table in rename of file/observe_darwin.go, which deletes from the table and adds to it. */
module RenameRange {
  import opened Collections
  import opened WatchTable

  // ---------------------------------------------------------------- runs of the range

  /** One step of the range. */
  function VisitOne(w: Table, root: Path, o: Path, n: Path, k: Rel): Table {
    if k in w && o <= w[k].abs then Moved(w, root, o, n, k) else w
  }

  /** The table after the range has produced these keys. */
  function Visits(w: Table, root: Path, o: Path, n: Path, run: seq<Rel>): Table {
    if run == [] then w else VisitOne(Visits(w, root, o, n, run[..|run|-1]), root, o, n, run[|run|-1])
  }

  function ToldOne(w: Table, o: Path, n: Path, id: nat, k: Rel): seq<Notice> {
    if k in w && o <= w[k].abs && !w[k].isDir then [Renamed(id, w[k].abs, n)] else []
  }

  /** The notices sent meanwhile: a file is reported under its old name, with the new name of the directory. */
  function Told(w: Table, root: Path, o: Path, n: Path, id: nat, run: seq<Rel>): seq<Notice> {
    if run == [] then []
    else Told(w, root, o, n, id, run[..|run|-1]) + ToldOne(Visits(w, root, o, n, run[..|run|-1]), o, n, id, run[|run|-1])
  }

  /** Visiting `k` adds the key `r`. */
  predicate Creates(w: Table, root: Path, o: Path, n: Path, k: Rel, r: Rel) {
    k in w && o <= w[k].abs && r == NewKey(w, root, o, n, k) && r !in w - {k}
  }

  /** The run has added the key, and not produced it since. */
  predicate Awaits(w: Table, root: Path, o: Path, n: Path, run: seq<Rel>, r: Rel) {
    run != [] &&
    var front, k := run[..|run|-1], run[|run|-1];
    Creates(Visits(w, root, o, n, front), root, o, n, k, r) || (k != r && Awaits(w, root, o, n, front, r))
  }

  /** Every key produced was in the table at the start and is produced for the first time, or was added during the range. */
  predicate RunSoFar(w: Table, root: Path, o: Path, n: Path, run: seq<Rel>) {
    run == [] ||
    var front, k := run[..|run|-1], run[|run|-1];
    RunSoFar(w, root, o, n, front) && ((k in w && k !in front) || Awaits(w, root, o, n, front, k))
  }

  /** A whole run produces every key that was there at the start; of those added it may skip any. */
  ghost predicate IsRun(w: Table, root: Path, o: Path, n: Path, run: seq<Rel>) {
    RunSoFar(w, root, o, n, run) && w.Keys <= SetOf(run)
  }

  /** Every run ends with the same table. */
  ghost predicate RunsAgree(w: Table, root: Path, o: Path, n: Path) {
    forall run, run' :: IsRun(w, root, o, n, run) && IsRun(w, root, o, n, run') ==>
      Visits(w, root, o, n, run) == Visits(w, root, o, n, run')
  }

  lemma MoreVisits(w: Table, root: Path, o: Path, n: Path, id: nat, run: seq<Rel>, k: Rel)
    ensures Visits(w, root, o, n, run + [k]) == VisitOne(Visits(w, root, o, n, run), root, o, n, k)
    ensures Told(w, root, o, n, id, run + [k]) == Told(w, root, o, n, id, run) + ToldOne(Visits(w, root, o, n, run), o, n, id, k)
  {
    assert (run + [k])[..|run|] == run;
  }

  lemma MoreAwaited(w: Table, root: Path, o: Path, n: Path, run: seq<Rel>, k: Rel, r: Rel)
    ensures Awaits(w, root, o, n, run + [k], r) <==>
            Creates(Visits(w, root, o, n, run), root, o, n, k, r) || (k != r && Awaits(w, root, o, n, run, r))
  {
    assert (run + [k])[..|run|] == run;
  }

  lemma MoreRun(w: Table, root: Path, o: Path, n: Path, run: seq<Rel>, k: Rel)
    ensures RunSoFar(w, root, o, n, run + [k]) <==>
            RunSoFar(w, root, o, n, run) && ((k in w && k !in run) || Awaits(w, root, o, n, run, k))
  {
    assert (run + [k])[..|run|] == run;
  }

  lemma {:induction false} VisitsKeyed(w: Table, root: Path, o: Path, n: Path, run: seq<Rel>)
    requires Keyed(w, root)
    ensures Keyed(Visits(w, root, o, n, run), root) && |Visits(w, root, o, n, run)| <= |w|
  {
    if run != [] {
      var front, k := run[..|run|-1], run[|run|-1];
      var w' := Visits(w, root, o, n, front);
      VisitsKeyed(w, root, o, n, front);
      if k in w' && o <= w'[k].abs {
        MovedKeyed(w', root, o, n, k);
        MovedCount(w', root, o, n, k);
      }
    }
  }

  /** A rename to the same path changes nothing. */
  lemma {:induction false} VisitsNowhere(w: Table, root: Path, o: Path, run: seq<Rel>)
    requires Keyed(w, root)
    ensures Visits(w, root, o, o, run) == w
  {
    if run != [] {
      var k := run[|run|-1];
      VisitsNowhere(w, root, o, run[..|run|-1]);
      if k in w && o <= w[k].abs {
        MovedNowhere(w, root, o, k);
      }
    }
  }

  // ---------------------------------------------------------------- where the entries settle

  /** The entries of `w` below the old path that have been moved: the directory's own, and those produced. */
  ghost function MovedBy(w: Table, o: Path, relo: Rel, run: seq<Rel>): set<Rel> {
    {relo} + Below(w, o) * SetOf(run)
  }

  lemma MovedByOne(w: Table, o: Path, relo: Rel, run: seq<Rel>)
    ensures run == [] ==> MovedBy(w, o, relo, run) == {relo}
    ensures run != [] ==>
              var front, k := run[..|run|-1], run[|run|-1];
              MovedBy(w, o, relo, run) == MovedBy(w, o, relo, front) + if k in Below(w, o) then {k} else {}
  {
    if run != [] {
      var front, k := run[..|run|-1], run[|run|-1];
      assert run == front + [k];
      assert SetOf(run) == SetOf(front) + {k};
    }
  }

  /** Producing more keys extends the substitution by the entries below the old path. */
  lemma {:induction false} RunExtends(w: Table, start: Table, root: Path, o: Path, n: Path, relo: Rel, run: seq<Rel>)
    requires Keyed(w, root) && Settles(w, o, n) && Substituted(w, start, root, o, n, {relo})
    ensures Substituted(w, Visits(start, root, o, n, run), root, o, n, MovedBy(w, o, relo, run))
  {
    MovedByOne(w, o, relo, run);
    if run != [] {
      var front, k := run[..|run|-1], run[|run|-1];
      RunExtends(w, start, root, o, n, relo, front);
      StepSubstitutes(w, Visits(start, root, o, n, front), Visits(start, root, o, n, run), root, o, n,
                      MovedBy(w, o, relo, front), MovedBy(w, o, relo, run), k);
    }
  }

  /** The table at the start of the range, and after each of its steps, is the table before the rename with the prefix
      substituted in the entries moved so far. */
  lemma RunSubstitutes(w: Table, root: Path, o: Path, n: Path, relo: Rel, run: seq<Rel>)
    requires Keyed(w, root) && Settles(w, o, n) && relo in w && w[relo].abs == o
    ensures Substituted(w, Visits(Moved(w, root, o, n, relo), root, o, n, run), root, o, n, MovedBy(w, o, relo, run))
  {
    StartSubstitutes(w, root, o, n, relo);
    RunExtends(w, Moved(w, root, o, n, relo), root, o, n, relo, run);
  }

  lemma StartSubstitutes(w: Table, root: Path, o: Path, n: Path, relo: Rel)
    requires Keyed(w, root) && Settles(w, o, n) && relo in w && w[relo].abs == o
    ensures Substituted(w, Moved(w, root, o, n, relo), root, o, n, {relo})
  {
    var none: set<Rel> := {};
    NothingMoved(w, root, o, n);
    SubstituteOne(w, w, root, o, n, none, relo);
    assert none + {relo} == {relo};
  }

  lemma StepSubstitutes(w: Table, w': Table, w'': Table, root: Path, o: Path, n: Path, moved: set<Rel>, moved': set<Rel>, k: Rel)
    requires Keyed(w, root) && Settles(w, o, n) && Substituted(w, w', root, o, n, moved)
    requires w'' == VisitOne(w', root, o, n, k) && moved' == moved + if k in Below(w, o) then {k} else {}
    ensures Substituted(w, w'', root, o, n, moved')
  {
    if k in w' && o <= w'[k].abs {
      MovedOne(w, w', root, o, n, moved, k);
      assert moved' == moved + {k};
    } else {
      NotBelow(w, w', root, o, n, moved, k);
      assert moved' == moved;
    }
  }

  lemma MovedOne(w: Table, w': Table, root: Path, o: Path, n: Path, moved: set<Rel>, k: Rel)
    requires Keyed(w, root) && Settles(w, o, n) && Substituted(w, w', root, o, n, moved)
    requires k in w' && o <= w'[k].abs
    ensures k in Below(w, o) - moved && w'[k] == w[k]
    ensures Substituted(w, Moved(w', root, o, n, k), root, o, n, moved + {k})
  {
    NotMovedYet(w, w', root, o, n, moved, k);
    SubstituteOne(w, w', root, o, n, moved, k);
  }

  /** An entry that the range does not move needs no move. */
  lemma NotBelow(w: Table, w': Table, root: Path, o: Path, n: Path, moved: set<Rel>, k: Rel)
    requires Keyed(w, root) && Settles(w, o, n) && Substituted(w, w', root, o, n, moved)
    requires !(k in w' && o <= w'[k].abs)
    ensures k in Below(w, o) ==> k in moved
  {
    if k in Below(w, o) - moved {
      StillThere(w, w', root, o, n, moved, k);
      assert false;
    }
  }

  lemma NothingMoved(w: Table, root: Path, o: Path, n: Path)
    ensures Substituted(w, w, root, o, n, {})
  {
  }

  /** One notice has been sent for each of these files. */
  ghost predicate Reported(w: Table, files: set<Rel>, order: seq<Rel>) {
    Enumerates(order, files) && forall k :: k in order ==> k in w
  }

  lemma ReportedMore(w: Table, gone: set<Rel>, order: seq<Rel>, k: Rel)
    requires k in w && k !in gone && Reported(w, FilesOf(w, gone), order)
    ensures Reported(w, FilesOf(w, gone + {k}), if w[k].isDir then order else order + [k])
  {
    if w[k].isDir {
      assert FilesOf(w, gone + {k}) == FilesOf(w, gone);
    } else {
      EnumeratesExtend(order, FilesOf(w, gone), k);
      assert FilesOf(w, gone + {k}) == FilesOf(w, gone) + {k};
    }
  }

  lemma NoticesMore(w: Table, order: seq<Rel>, id: nat, n: Path, k: Rel)
    requires k in w && forall j :: j in order ==> j in w
    ensures RenameNotices(w, order + [k], id, n) == RenameNotices(w, order, id, n) + [Renamed(id, w[k].abs, n)]
  {
  }

  lemma StepTells(w: Table, w': Table, root: Path, o: Path, n: Path, id: nat, moved: set<Rel>, order: seq<Rel>, k: Rel) returns (order': seq<Rel>)
    requires Keyed(w, root) && Settles(w, o, n) && Substituted(w, w', root, o, n, moved)
    requires Reported(w, FilesOf(w, moved), order)
    ensures Reported(w, FilesOf(w, moved + if k in Below(w, o) then {k} else {}), order')
    ensures RenameNotices(w, order', id, n) == RenameNotices(w, order, id, n) + ToldOne(w', o, n, id, k)
  {
    order' := order;
    if k in w' && o <= w'[k].abs {
      MovedOne(w, w', root, o, n, moved, k);
      ReportedMore(w, moved, order, k);
      NoticesMore(w, order, id, n, k);
      order' := if w[k].isDir then order else order + [k];
    } else {
      NotBelow(w, w', root, o, n, moved, k);
      assert moved + (if k in Below(w, o) then {k} else {}) == moved;
    }
  }

  /** Each file that has been moved has been reported once, under its old name. */
  lemma {:induction false} RunTells(w: Table, root: Path, o: Path, n: Path, id: nat, relo: Rel, run: seq<Rel>) returns (order: seq<Rel>)
    requires Keyed(w, root) && Settles(w, o, n) && relo in w && w[relo] == File(o, true)
    ensures Reported(w, FilesOf(w, MovedBy(w, o, relo, run)), order)
    ensures Told(Moved(w, root, o, n, relo), root, o, n, id, run) == RenameNotices(w, order, id, n)
  {
    MovedByOne(w, o, relo, run);
    if run == [] {
      order := [];
      assert FilesOf(w, {relo}) == {};
    } else {
      var front, k := run[..|run|-1], run[|run|-1];
      order := RunTells(w, root, o, n, id, relo, front);
      RunSubstitutes(w, root, o, n, relo, front);
      order := StepTells(w, Visits(Moved(w, root, o, n, relo), root, o, n, front), root, o, n, id, MovedBy(w, o, relo, front), order, k);
    }
  }

  /** A whole run moves everything below the old path. */
  lemma RunMovesAll(w: Table, root: Path, o: Path, n: Path, relo: Rel, run: seq<Rel>)
    requires Keyed(w, root) && Settles(w, o, n) && relo in w && w[relo].abs == o
    requires Moved(w, root, o, n, relo).Keys <= SetOf(run)
    ensures MovedBy(w, o, relo, run) == Below(w, o)
  {
    var start := Moved(w, root, o, n, relo);
    StartSubstitutes(w, root, o, n, relo);
    forall k | k in Below(w, o) && k != relo ensures k in SetOf(run) {
      StillThere(w, start, root, o, n, {relo}, k);
    }
  }

  /** Substitution leaves no choice. */
  lemma SubstitutedUnique(w: Table, w': Table, w'': Table, root: Path, o: Path, n: Path, moved: set<Rel>)
    requires Substituted(w, w', root, o, n, moved) && Substituted(w, w'', root, o, n, moved)
    ensures w' == w''
  {
    forall r: Rel ensures SameEntry(w', w'', r) {
      if IsNewKey(w, root, o, n, moved, r) {
        var k :| k in moved && NewKey(w, root, o, n, k) == r;
      }
    }
    SameTables(w', w'');
  }

  // ---------------------------------------------------------------- where they do not

  /** A key that has not been produced is still there. */
  lemma {:induction false} UnproducedStays(w: Table, root: Path, o: Path, n: Path, run: seq<Rel>, k: Rel)
    requires k in w && k !in run
    ensures k in Visits(w, root, o, n, run)
  {
    if run != [] {
      assert run == run[..|run|-1] + [run[|run|-1]];
      UnproducedStays(w, root, o, n, run[..|run|-1], k);
    }
  }

  lemma {:induction false} DistinctRun(w: Table, root: Path, o: Path, n: Path, run: seq<Rel>)
    requires Distinct(run) && SetOf(run) <= w.Keys
    ensures RunSoFar(w, root, o, n, run)
  {
    if run != [] {
      var front, k := run[..|run|-1], run[|run|-1];
      assert k in SetOf(run);
      forall j | j in SetOf(front) ensures j in w.Keys {
        assert j in SetOf(run);
      }
      DistinctRun(w, root, o, n, front);
    }
  }

  /** A visit of an entry below the old path takes it away from its key. */
  lemma Leaves(w: Table, root: Path, o: Path, n: Path, k: Rel)
    requires Keyed(w, root) && o != n && k in w && o <= w[k].abs
    ensures k !in Moved(w, root, o, n, k)
  {
    var p, q := w[k].abs, Substitute(w[k], o, n).abs;
    RelInjective(root, p, q);
    assert p == o + p[|o|..];
    SamePrefix(o, n, p[|o|..]);
  }

  lemma SamePrefix(o: Path, n: Path, rest: Path)
    ensures o + rest == n + rest <==> o == n
  {
    assert (o + rest)[..|o|] == o && (n + rest)[..|n|] == n;
    assert o + rest == n + rest ==> |o + rest| - |rest| == |n + rest| - |rest|;
  }

  /** A key below the old path that is in the table after its entry at the start, if any, was moved has been added. */
  lemma {:induction false} AddedAwaits(w: Table, root: Path, o: Path, n: Path, run: seq<Rel>, p: Path)
    requires Keyed(w, root) && o != n && o <= p
    requires RelOf(root, p) in w ==> RelOf(root, p) in run
    requires RelOf(root, p) in Visits(w, root, o, n, run)
    ensures Awaits(w, root, o, n, run, RelOf(root, p))
  {
    var r := RelOf(root, p);
    var front, k := run[..|run|-1], run[|run|-1];
    var w' := Visits(w, root, o, n, front);
    assert run == front + [k];
    VisitsKeyed(w, root, o, n, front);
    if k == r {
      if r in w' {
        RelInjective(root, w'[r].abs, p);
        Leaves(w', root, o, n, r);
      }
      assert false;
    }
    if !Creates(w', root, o, n, k, r) {
      assert r in w';
      AddedAwaits(w, root, o, n, front, p);
    }
  }

  /** Where the last entry visited goes. */
  lemma LastLands(w: Table, root: Path, o: Path, n: Path, front: seq<Rel>, k: Rel)
    requires Keyed(w, root) && k in w && k !in front && o <= w[k].abs
    ensures var p := n + w[k].abs[|o|..]; var t := Visits(w, root, o, n, front + [k]);
            RelOf(root, p) in t && t[RelOf(root, p)].abs == p
  {
    var w' := Visits(w, root, o, n, front);
    VisitsKeyed(w, root, o, n, front);
    UnproducedStays(w, root, o, n, front, k);
    RelInjective(root, w'[k].abs, w[k].abs);
    assert VisitOne(w', root, o, n, k) == Moved(w', root, o, n, k);
    MoreVisits(w, root, o, n, 0, front, k);
  }

  /** Two runs that part: in the second, the range goes on to an entry that it has added below the old path. */
  lemma Revisit(w: Table, root: Path, o: Path, n: Path, k: Rel)
    returns (run: seq<Rel>, r: Rel)
    requires Keyed(w, root) && o != n && k in w && Lands(w[k].abs, o, n)
    ensures IsRun(w, root, o, n, run) && IsRun(w, root, o, n, run + [r])
    ensures Visits(w, root, o, n, run) != Visits(w, root, o, n, run + [r])
  {
    run := EndingWith(w.Keys, k);
    var front := run[..|run|-1];
    assert run == front + [k];
    var p := n + w[k].abs[|o|..];
    r := RelOf(root, p);
    LastLands(w, root, o, n, front, k);
    GoesOn(w, root, o, n, run, p);
    RevisitMoves(w, root, o, n, run, r);
  }

  lemma GoesOn(w: Table, root: Path, o: Path, n: Path, run: seq<Rel>, p: Path)
    requires Keyed(w, root) && o != n && o <= p && Enumerates(run, w.Keys)
    requires RelOf(root, p) in Visits(w, root, o, n, run)
    ensures IsRun(w, root, o, n, run) && IsRun(w, root, o, n, run + [RelOf(root, p)])
  {
    var r := RelOf(root, p);
    DistinctRun(w, root, o, n, run);
    assert r in w ==> r in SetOf(run);
    AddedAwaits(w, root, o, n, run, p);
    MoreRun(w, root, o, n, run, r);
    assert SetOf(run + [r]) == SetOf(run) + {r};
  }

  lemma RevisitMoves(w: Table, root: Path, o: Path, n: Path, run: seq<Rel>, r: Rel)
    requires Keyed(w, root) && o != n && r in Visits(w, root, o, n, run) && o <= Visits(w, root, o, n, run)[r].abs
    ensures r !in Visits(w, root, o, n, run + [r])
  {
    VisitsKeyed(w, root, o, n, run);
    MoreVisits(w, root, o, n, 0, run, r);
    Leaves(Visits(w, root, o, n, run), root, o, n, r);
  }

  /** What lands below the old path before the range lands there after the directory's own entry has been moved. */
  lemma LandsAtStart(w: Table, root: Path, o: Path, n: Path, relo: Rel, k: Rel) returns (k': Rel)
    requires Keyed(w, root) && relo in w && w[relo].abs == o && k in w && Lands(w[k].abs, o, n)
    ensures var start := Moved(w, root, o, n, relo); k' in start && Lands(start[k'].abs, o, n)
  {
    assert n + o[|o|..] == n;
    if k == relo {
      k' := RelOf(root, n);
      assert n[..|o|] == o;
      assert (n + n[|o|..])[..|o|] == n[..|o|];
    } else {
      k' := k;
      if k == RelOf(root, n) {
        RelInjective(root, n, w[k].abs);
      }
    }
  }

  /** Exactly when the range's result does not depend on which of the entries it adds are visited, and how often. */
  lemma RunsAgreeIff(w: Table, root: Path, o: Path, n: Path, relo: Rel)
    requires Keyed(w, root) && o != n && relo in w && w[relo].abs == o
    ensures RunsAgree(Moved(w, root, o, n, relo), root, o, n) <==> Settles(w, o, n)
  {
    var start := Moved(w, root, o, n, relo);
    if Settles(w, o, n) {
      forall run, run' | IsRun(start, root, o, n, run) && IsRun(start, root, o, n, run')
        ensures Visits(start, root, o, n, run) == Visits(start, root, o, n, run')
      {
        RunSubstitutes(w, root, o, n, relo, run);
        RunSubstitutes(w, root, o, n, relo, run');
        RunMovesAll(w, root, o, n, relo, run);
        RunMovesAll(w, root, o, n, relo, run');
        SubstitutedUnique(w, Visits(start, root, o, n, run), Visits(start, root, o, n, run'), root, o, n, Below(w, o));
      }
    } else {
      var k :| k in w && Lands(w[k].abs, o, n);
      var k' := LandsAtStart(w, root, o, n, relo, k);
      MovedKeyed(w, root, o, n, relo);
      var run, r := Revisit(start, root, o, n, k');
    }
  }
}
