/** The observer's changes to its watch table: add and remove of file/observe.go, rename of file/observe_darwin.go. */
module FileObserver {
  import opened Collections
  import opened WatchTable
  import opened RenameRange

  class Observer {
    const root: Path
    var watched: Table
    var sent: seq<Notice>

    ghost predicate Valid()
      reads this
    {
      Keyed(watched, root)
    }

    constructor (root: Path)
      ensures Valid() && this.root == root && watched == map[] && sent == []
    {
      this.root, watched, sent := root, map[], [];
    }

    method Notify(n: Notice)
      modifies this`sent
      ensures sent == old(sent) + [n]
    {
      sent := sent + [n];
    }

    /** A file that is watched already is returned as it is; `dirAdded` says whether the host could watch the directory. */
    method Add(abs: Path, isDir: bool, dirAdded: bool) returns (f: Option<File>)
      requires Valid()
      modifies this`watched
      ensures Valid()
      ensures RelOf(root, abs) in old(watched) ==> watched == old(watched) && f == Some(old(watched)[RelOf(root, abs)])
      ensures RelOf(root, abs) !in old(watched) && isDir && !dirAdded ==> watched == old(watched) && f == None
      ensures RelOf(root, abs) !in old(watched) && (isDir ==> dirAdded) ==>
                watched == old(watched)[RelOf(root, abs) := File(abs, isDir)] && f == Some(File(abs, isDir))
    {
      var todo := watched.Keys;
      while todo != {}
        invariant todo <= watched.Keys
        invariant forall k :: k in watched.Keys - todo ==> watched[k].abs != abs
      {
        var k :| k in todo;
        if watched[k].abs == abs {
          return Some(watched[k]);
        }
        todo := todo - {k};
      }
      if RelOf(root, abs) in watched {
        RelInjective(root, abs, watched[RelOf(root, abs)].abs);
        assert false;
      }
      if isDir && !dirAdded {
        return None;
      }
      f := Some(File(abs, isDir));
      watched := watched[RelOf(root, abs) := File(abs, isDir)];
    }

    /** Drops a file, or a directory with everything below it. */
    method Remove(f: File, id: nat) returns (ghost order: seq<Rel>)
      requires Valid()
      modifies this
      ensures Valid()
      ensures f.isDir ==> watched == old(watched) - Below(old(watched), f.abs)
      ensures f.isDir ==> Enumerates(order, FilesOf(old(watched), Below(old(watched), f.abs)) - {RelOf(root, f.abs)})
      ensures f.isDir ==> (forall k :: k in order ==> k in old(watched)) && sent == old(sent) + DeleteNotices(old(watched), order, id)
      ensures !f.isDir ==> watched == old(watched) - {RelOf(root, f.abs)} && sent == old(sent) + [Deleted(id, f.abs)]
    {
      ghost var w := watched;
      var rel := RelOf(root, f.abs);
      watched := watched - {rel};
      order := [];
      if f.isDir {
        KeyBelow(w, root, rel, f.abs);
        order := RemoveBelow(f.abs, id);
        assert Below(w - {rel}, f.abs) == Below(w, f.abs) - {rel};
        assert watched == w - Below(w, f.abs);
        assert FilesOf(w - {rel}, Below(w - {rel}, f.abs)) == FilesOf(w, Below(w, f.abs)) - {rel};
        assert DeleteNotices(w - {rel}, order, id) == DeleteNotices(w, order, id);
      } else {
        Notify(Deleted(id, f.abs));
      }
    }

    /** Drops one entry, with a notice if it is a file. */
    method Drop(k: Rel, id: nat, ghost w: Table, ghost order: seq<Rel>, ghost before: seq<Notice>) returns (ghost order': seq<Rel>)
      requires k in watched && k in w && w[k] == watched[k] && (forall j :: j in order ==> j in w)
      requires sent == before + DeleteNotices(w, order, id)
      modifies this
      ensures watched == old(watched) - {k} && order' == (if w[k].isDir then order else order + [k])
      ensures forall j :: j in order' ==> j in w
      ensures sent == before + DeleteNotices(w, order', id)
    {
      var g := watched[k];
      watched := watched - {k};
      order' := order;
      if !g.isDir {
        order' := order + [k];
        assert DeleteNotices(w, order', id) == DeleteNotices(w, order, id) + [Deleted(id, g.abs)];
        Notify(Deleted(id, g.abs));
      }
    }

    /** Ranges over the table, dropping what is below the directory, with one notice per file. */
    method RemoveBelow(dir: Path, id: nat) returns (ghost order: seq<Rel>)
      requires Valid()
      modifies this
      ensures Valid()
      ensures watched == old(watched) - Below(old(watched), dir)
      ensures Enumerates(order, FilesOf(old(watched), Below(old(watched), dir)))
      ensures forall k :: k in order ==> k in old(watched)
      ensures sent == old(sent) + DeleteNotices(old(watched), order, id)
    {
      order := [];
      ghost var w := watched;
      ghost var gone: set<Rel> := {};
      assert sent == old(sent) + DeleteNotices(w, [], id);
      var todo := watched.Keys;
      while todo != {}
        invariant todo <= w.Keys && todo !! gone
        invariant watched == w - gone
        invariant gone <= Below(w, dir) <= gone + todo
        invariant Reported(w, FilesOf(w, gone), order)
        invariant sent == old(sent) + DeleteNotices(w, order, id)
      {
        var k :| k in todo;
        todo := todo - {k};
        if Subdir(dir, watched[k].abs).Some? {
          ReportedMore(w, gone, order, k);
          order := Drop(k, id, w, order, old(sent));
          gone := gone + {k};
        }
      }
      assert gone == Below(w, dir);
    }

    /** Moves a file, or a directory with everything below it, to a new path. The range over the table runs while
        entries are deleted from it and added to it: an added entry may or may not be visited. */
    method Rename(id: nat, absn: Path, abso: Path) returns (ghost run: seq<Rel>, ghost order: seq<Rel>)
      requires Valid() && !StrictlyAbove(absn, root)
      modifies this
      ensures Valid() && |watched| <= |old(watched)|
      ensures RelOf(root, abso) !in old(watched) ==> watched == old(watched) && sent == old(sent)
      ensures abso == absn ==> watched == old(watched)
      ensures RelOf(root, abso) in old(watched) && !old(watched)[RelOf(root, abso)].isDir ==>
                && abso <= old(watched)[RelOf(root, abso)].abs
                && watched == Moved(old(watched), root, abso, absn, RelOf(root, abso))
                && sent == old(sent) + [Renamed(id, abso, absn)]
      ensures RelOf(root, abso) in old(watched) && old(watched)[RelOf(root, abso)].isDir ==>
                && abso <= old(watched)[RelOf(root, abso)].abs
                && var start := Moved(old(watched), root, abso, absn, RelOf(root, abso));
                && IsRun(start, root, abso, absn, run)
                && watched == Visits(start, root, abso, absn, run)
                && sent == old(sent) + Told(start, root, abso, absn, id, run)
      ensures RelOf(root, abso) in old(watched) && old(watched)[RelOf(root, abso)].isDir && Settles(old(watched), abso, absn) ==>
                && Substituted(old(watched), watched, root, abso, absn, Below(old(watched), abso))
                && Enumerates(order, FilesOf(old(watched), Below(old(watched), abso)))
                && (forall k :: k in order ==> k in old(watched))
                && sent == old(sent) + RenameNotices(old(watched), order, id, absn)
                && Misnamed(old(watched), order, abso, absn)
    {
      ghost var w := watched;
      run, order := [], [];
      var relo, reln := RelOf(root, abso), RelOf(root, absn);
      if relo !in watched {
        return;
      }
      var f := watched[relo];
      RelInjective(root, abso, f.abs);
      f := File(absn, f.isDir);
      watched := watched - {relo};
      watched := watched[reln := f];
      assert absn + abso[|abso|..] == absn;
      assert watched == Moved(w, root, abso, absn, relo);
      MovedKeyed(w, root, abso, absn, relo);
      MovedCount(w, root, abso, absn, relo);
      if abso == absn {
        MovedNowhere(w, root, abso, relo);
      }
      if !f.isDir {
        Notify(Renamed(id, abso, absn));
        return;
      }
      run := MoveBelow(id, absn, abso);
      if abso == absn {
        VisitsNowhere(w, root, abso, run);
      }
      if Settles(w, abso, absn) {
        order := WholeRun(w, root, abso, absn, id, relo, run);
      }
    }

    /** Moves one entry below the old directory. */
    method MoveEntry(absn: Path, abso: Path, relo: Rel) returns (reln: Rel, isNew: bool)
      requires Valid() && !StrictlyAbove(absn, root)
      requires relo in watched && abso <= watched[relo].abs
      modifies this`watched
      ensures reln == NewKey(old(watched), root, abso, absn, relo)
      ensures isNew <==> Creates(old(watched), root, abso, absn, relo, reln)
      ensures watched == Moved(old(watched), root, abso, absn, relo)
    {
      var f := watched[relo];
      var rel := Subdir(abso, f.abs).value;
      NewPathJoins(root, absn, rel);
      reln := Rel(RelOf(root, absn).ups, RelOf(root, absn).names + rel);
      watched := watched - {relo};
      isNew := reln !in watched;
      watched := watched[reln := File(Join(root, reln), f.isDir)];
    }

    /** One step of the range; returns the key it added to the table, if any. */
    method Visit(id: nat, absn: Path, abso: Path, relo: Rel) returns (added: set<Rel>)
      requires Valid() && !StrictlyAbove(absn, root)
      modifies this`watched, this`sent
      ensures watched == VisitOne(old(watched), root, abso, absn, relo)
      ensures sent == old(sent) + ToldOne(old(watched), abso, absn, id, relo)
      ensures forall r :: r in added ==> Creates(old(watched), root, abso, absn, relo, r)
    {
      added := {};
      if relo in watched && Subdir(abso, watched[relo].abs).Some? {
        var f := watched[relo];
        var reln, isNew := MoveEntry(absn, abso, relo);
        // a file that was moved is reported under its old name, with the new name of the directory
        if !f.isDir {
          Notify(Renamed(id, f.abs, absn));
        }
        if isNew {
          added := {reln};
        }
      }
    }

    /** The range started with the table `start` and has produced these keys. */
    ghost predicate Ranging(start: Table, abso: Path, absn: Path, run: seq<Rel>, id: nat, before: seq<Notice>)
      reads this
    {
      && Keyed(start, root)
      && watched == Visits(start, root, abso, absn, run)
      && sent == before + Told(start, root, abso, absn, id, run)
    }

    /** The range produces one more key. */
    method Produce(id: nat, absn: Path, abso: Path, relk: Rel, ghost start: Table, ghost run: seq<Rel>, ghost before: seq<Notice>,
                   ghost todo: set<Rel>, ghost added: set<Rel>) returns (more: set<Rel>)
      requires !StrictlyAbove(absn, root) && relk in todo + added
      requires Ranging(start, abso, absn, run, id, before) && Producible(start, root, abso, absn, run, todo, added)
      modifies this`watched, this`sent
      ensures Ranging(start, abso, absn, run + [relk], id, before)
      ensures Producible(start, root, abso, absn, run + [relk], todo - {relk}, added - {relk} + more)
    {
      ghost var was := sent;
      VisitsKeyed(start, root, abso, absn, run);
      more := Visit(id, absn, abso, relk);
      MoreVisits(start, root, abso, absn, id, run, relk);
      ProducedOne(start, root, abso, absn, run, todo, added, relk, more);
      OneMoreTold(before, was, sent, start, root, abso, absn, id, run, relk);
    }

    /** The range of a directory's rename, after the directory itself has been moved. It visits the entries that were
        there at its start, and some number of those added since. */
    method MoveBelow(id: nat, absn: Path, abso: Path) returns (ghost run: seq<Rel>)
      requires Valid() && !StrictlyAbove(absn, root)
      modifies this`watched, this`sent
      ensures Valid() && |watched| <= |old(watched)|
      ensures IsRun(old(watched), root, abso, absn, run)
      ensures watched == Visits(old(watched), root, abso, absn, run)
      ensures sent == old(sent) + Told(old(watched), root, abso, absn, id, run)
    {
      ghost var start := watched;
      run := [];
      var todo := watched.Keys;
      var added: set<Rel> := {};
      var revisits: nat := *;
      while todo + added != {}
        invariant Ranging(start, abso, absn, run, id, old(sent))
        invariant Producible(start, root, abso, absn, run, todo, added)
        decreases todo, revisits, added
      {
        var relk :| relk in todo + added;
        var produced := relk in todo;
        if !produced && revisits > 0 {
          produced := *; // an entry added during the range may be skipped
          if produced {
            revisits := revisits - 1;
          }
        }
        if produced {
          var more := Produce(id, absn, abso, relk, start, run, old(sent), todo, added);
          todo, added, run := todo - {relk}, added - {relk} + more, run + [relk];
        } else {
          added := added - {relk};
        }
      }
      VisitsKeyed(start, root, abso, absn, run);
      NoneLeft(start, run, todo, added);
    }
  }

  /** What the range has still to produce, and what it may produce. */
  ghost predicate Producible(w: Table, root: Path, o: Path, n: Path, run: seq<Rel>, todo: set<Rel>, added: set<Rel>) {
    && RunSoFar(w, root, o, n, run)
    && todo == w.Keys - SetOf(run)
    && forall r :: r in added ==> Awaits(w, root, o, n, run, r)
  }

  lemma OneMoreTold(before: seq<Notice>, was: seq<Notice>, sent: seq<Notice>, w: Table, root: Path, o: Path, n: Path, id: nat, run: seq<Rel>, k: Rel)
    requires was == before + Told(w, root, o, n, id, run)
    requires sent == was + ToldOne(Visits(w, root, o, n, run), o, n, id, k)
    ensures sent == before + Told(w, root, o, n, id, run + [k])
  {
    MoreVisits(w, root, o, n, id, run, k);
  }

  lemma NoneLeft(w: Table, run: seq<Rel>, todo: set<Rel>, added: set<Rel>)
    requires todo == w.Keys - SetOf(run) && todo + added == {}
    ensures w.Keys <= SetOf(run)
  {
    forall k | k in w ensures k in SetOf(run) {
      assert k !in todo + added;
    }
  }

  lemma ProducedOne(w: Table, root: Path, o: Path, n: Path, run: seq<Rel>, todo: set<Rel>, added: set<Rel>, k: Rel, more: set<Rel>)
    requires Producible(w, root, o, n, run, todo, added) && k in todo + added
    requires forall r :: r in more ==> Creates(Visits(w, root, o, n, run), root, o, n, k, r)
    ensures Producible(w, root, o, n, run + [k], todo - {k}, added - {k} + more)
  {
    MoreRun(w, root, o, n, run, k);
    assert k in todo ==> k !in SetOf(run);
    assert SetOf(run + [k]) == SetOf(run) + {k};
    forall r | r in added - {k} + more ensures Awaits(w, root, o, n, run + [k], r) {
      MoreAwaited(w, root, o, n, run, k, r);
    }
  }

  /** A whole run of the range, where every entry settles. */
  lemma WholeRun(w: Table, root: Path, o: Path, n: Path, id: nat, relo: Rel, run: seq<Rel>) returns (order: seq<Rel>)
    requires Keyed(w, root) && Settles(w, o, n) && relo == RelOf(root, o) && relo in w && w[relo] == File(o, true)
    requires Moved(w, root, o, n, relo).Keys <= SetOf(run)
    ensures Substituted(w, Visits(Moved(w, root, o, n, relo), root, o, n, run), root, o, n, Below(w, o))
    ensures Reported(w, FilesOf(w, Below(w, o)), order) && Misnamed(w, order, o, n)
    ensures Told(Moved(w, root, o, n, relo), root, o, n, id, run) == RenameNotices(w, order, id, n)
  {
    RunMovesAll(w, root, o, n, relo, run);
    RunSubstitutes(w, root, o, n, relo, run);
    order := RunTells(w, root, o, n, id, relo, run);
    DirectoryMisnamed(w, root, order, o, n);
  }

  lemma KeyBelow(w: Table, root: Path, rel: Rel, abs: Path)
    requires Keyed(w, root) && rel == RelOf(root, abs)
    ensures rel in w ==> rel in Below(w, abs)
  {
    if rel in w {
      RelInjective(root, w[rel].abs, abs);
    }
  }

  /** Joining the new directory's relative path with a path below it gives the relative path of the result. */
  lemma NewPathJoins(root: Path, absn: Path, rel: Path)
    requires !StrictlyAbove(absn, root)
    ensures var target := Rel(RelOf(root, absn).ups, RelOf(root, absn).names + rel);
            && target == RelOf(root, absn + rel) && target.ups <= |root| && Join(root, target) == absn + rel
  {
    CommonExtends(root, absn, rel);
    var k := Common(root, absn);
    assert (absn + rel)[k..] == absn[k..] + rel;
    JoinRel(root, absn + rel);
  }
}
