/** The table of watched files: file/observe.go and the rename of file/observe_darwin.go. */
module WatchTable {
  import opened Collections

  /** A clean absolute path, component by component. */
  type Path = seq<string>

  /** A path relative to the root: so many times up, then down. */
  datatype Rel = Rel(ups: nat, names: seq<string>)

  datatype File = File(abs: Path, isDir: bool)

  type Table = map<Rel, File>

  datatype Notice =
    | Created(id: nat, name: Path)
    | Deleted(id: nat, name: Path)
    | Renamed(id: nat, name: Path, newname: Path)

  // ---------------------------------------------------------------- paths

  function Common(a: Path, b: Path): (k: nat)
    ensures k <= |a| && k <= |b| && a[..k] == b[..k]
  {
    if a == [] || b == [] || a[0] != b[0] then 0
    else
      var k := Common(a[1..], b[1..]);
      assert a[..k+1] == [a[0]] + a[1..][..k] && b[..k+1] == [b[0]] + b[1..][..k];
      k + 1
  }

  /** filepath.Rel of two clean absolute paths. */
  function RelOf(root: Path, abs: Path): Rel {
    var k := Common(root, abs);
    Rel(|root| - k, abs[k..])
  }

  /** filepath.Join of the root and a relative path. */
  function Join(root: Path, r: Rel): Path
    requires r.ups <= |root|
  {
    root[..|root| - r.ups] + r.names
  }

  /** gocore.Subdir: the path below a directory, if it is there. */
  function Subdir(dir: Path, path: Path): Option<Path> {
    if dir <= path then Some(path[|dir|..]) else None
  }

  lemma JoinRel(root: Path, abs: Path)
    ensures RelOf(root, abs).ups <= |root| && Join(root, RelOf(root, abs)) == abs
  {
    var k := Common(root, abs);
    assert abs == abs[..k] + abs[k..];
  }

  /** No two paths have the same relative form. */
  lemma RelInjective(root: Path, a: Path, b: Path)
    ensures RelOf(root, a) == RelOf(root, b) ==> a == b
  {
    JoinRel(root, a);
    JoinRel(root, b);
  }

  /** A path that is not strictly above the root keeps its common part with it when it is extended. */
  lemma {:induction false} CommonExtends(root: Path, abs: Path, more: Path)
    requires abs <= root ==> abs == root
    ensures Common(root, abs + more) == Common(root, abs)
  {
    if abs == [] {
      assert root == [];
    } else if root != [] && abs[0] == root[0] {
      assert (abs + more)[1..] == abs[1..] + more;
      if abs[1..] <= root[1..] {
        assert abs == [abs[0]] + abs[1..] && root == [root[0]] + root[1..];
        assert abs <= root;
      }
      CommonExtends(root[1..], abs[1..], more);
    }
  }

  // ---------------------------------------------------------------- the table

  /** Every key is the root-relative form of its file's path. */
  ghost predicate Keyed(w: Table, root: Path) {
    forall k :: k in w ==> k == RelOf(root, w[k].abs)
  }

  predicate StrictlyAbove(a: Path, b: Path) {
    a <= b && a != b
  }

  /** Neither path lies at or below the other. */
  predicate Unrelated(o: Path, n: Path) {
    !(o <= n) && !(n <= o)
  }

  function Substitute(f: File, o: Path, n: Path): File
    requires o <= f.abs
  {
    File(n + f.abs[|o|..], f.isDir)
  }

  lemma SubstituteBack(f: File, o: Path, n: Path)
    requires o <= f.abs
    ensures n <= Substitute(f, o, n).abs && Substitute(Substitute(f, o, n), n, o) == f
  {
    assert (n + f.abs[|o|..])[|n|..] == f.abs[|o|..];
  }

  function NewKey(w: Table, root: Path, o: Path, n: Path, k: Rel): Rel
    requires k in w && o <= w[k].abs
  {
    RelOf(root, Substitute(w[k], o, n).abs)
  }

  ghost predicate AllBelow(w: Table, o: Path, keys: set<Rel>) {
    forall k :: k in keys ==> k in w && o <= w[k].abs
  }

  ghost predicate IsNewKey(w: Table, root: Path, o: Path, n: Path, moved: set<Rel>, r: Rel)
    requires AllBelow(w, o, moved)
  {
    exists k :: k in moved && NewKey(w, root, o, n, k) == r
  }

  /** `w'` is `w` with the path prefix `o` replaced by `n` in the entries `moved`, which take the place of
      any entry that was at their new path; everything else is untouched. */
  ghost predicate Substituted(w: Table, w': Table, root: Path, o: Path, n: Path, moved: set<Rel>) {
    && AllBelow(w, o, moved)
    && (forall k :: k in moved ==> NewKey(w, root, o, n, k) in w' && w'[NewKey(w, root, o, n, k)] == Substitute(w[k], o, n))
    && (forall r :: r in w && r !in moved && !IsNewKey(w, root, o, n, moved, r) ==> r in w' && w'[r] == w[r])
    && (forall r :: r in w' ==> IsNewKey(w, root, o, n, moved, r) || (r in w && r !in moved))
  }

  ghost function Below(w: Table, o: Path): set<Rel> {
    set k | k in w && o <= w[k].abs
  }

  ghost function FilesOf(w: Table, keys: set<Rel>): set<Rel> {
    set k | k in keys && k in w && !w[k].isDir
  }

  function RenameNotices(w: Table, order: seq<Rel>, id: nat, n: Path): (r: seq<Notice>)
    requires forall k :: k in order ==> k in w
    ensures |r| == |order|
  {
    seq(|order|, i requires 0 <= i < |order| => Renamed(id, w[order[i]].abs, n))
  }

  function DeleteNotices(w: Table, order: seq<Rel>, id: nat): (r: seq<Notice>)
    requires forall k :: k in order ==> k in w
    ensures |r| == |order|
  {
    seq(|order|, i requires 0 <= i < |order| => Deleted(id, w[order[i]].abs))
  }

  lemma PrefixesMeet(o: Path, n: Path, p: Path)
    requires o <= p && n <= p
    ensures o <= n || n <= o
  {
    if |o| <= |n| {
      assert n == p[..|n|] && o == p[..|o|] == n[..|o|];
    } else {
      assert n == p[..|n|] == o[..|n|];
    }
  }

  /** A path below the old prefix is below it again once it has been substituted. */
  predicate Lands(p: Path, o: Path, n: Path) {
    o <= p && o <= n + p[|o|..]
  }

  /** No entry lands below the old prefix. */
  ghost predicate Settles(w: Table, o: Path, n: Path) {
    forall k :: k in w ==> !Lands(w[k].abs, o, n)
  }

  lemma UnrelatedSettles(w: Table, o: Path, n: Path)
    requires Unrelated(o, n)
    ensures Settles(w, o, n)
  {
    forall k | k in w ensures !Lands(w[k].abs, o, n) {
      if Lands(w[k].abs, o, n) {
        PrefixesMeet(o, n, n + w[k].abs[|o|..]);
        assert false;
      }
    }
  }

  lemma LandsAbove(p: Path, o: Path, n: Path)
    requires n <= o
    ensures Lands(p, o, n) <==> o + o[|n|..] <= p
  {
    var down := o[|n|..];
    assert o == n + down;
    if o <= p {
      var rest := p[|o|..];
      assert p == o + rest;
      assert (n + rest)[|n|..] == rest;
      if o <= n + rest {
        assert rest[..|down|] == (n + rest)[|n|..|o|] == down;
        assert p[..|o + down|] == o + down;
      }
      if o + down <= p {
        assert rest[..|down|] == p[|o|..|o| + |down|] == down;
        assert (n + rest)[..|o|] == n + down;
      }
    }
  }

  /** When the old path itself is in the table: exactly when the new path is not below it, and, if it is above it, no
      entry is below the old path by the same way down again. */
  lemma SettlesIff(w: Table, root: Path, o: Path, n: Path)
    requires RelOf(root, o) in w && w[RelOf(root, o)].abs == o
    ensures Settles(w, o, n) <==> !(o <= n) && (n <= o ==> forall k :: k in w ==> !(o + o[|n|..] <= w[k].abs))
  {
    assert n + o[|o|..] == n;
    if n <= o {
      forall k | k in w ensures Lands(w[k].abs, o, n) <==> o + o[|n|..] <= w[k].abs {
        LandsAbove(w[k].abs, o, n);
      }
    } else if !(o <= n) {
      UnrelatedSettles(w, o, n);
    }
  }

  /** New keys are not those of entries still to be moved. */
  lemma NewKeysDiffer(w: Table, root: Path, o: Path, n: Path, j: Rel, k: Rel)
    requires Keyed(w, root) && Settles(w, o, n) && j in w && k in w && o <= w[j].abs && o <= w[k].abs
    ensures NewKey(w, root, o, n, j) != k
  {
    RelInjective(root, Substitute(w[j], o, n).abs, w[k].abs);
  }

  lemma NewKeysInjective(w: Table, root: Path, o: Path, n: Path, j: Rel, k: Rel)
    requires Keyed(w, root) && j in w && k in w && o <= w[j].abs && o <= w[k].abs
    ensures NewKey(w, root, o, n, j) == NewKey(w, root, o, n, k) ==> j == k
  {
    RelInjective(root, Substitute(w[j], o, n).abs, Substitute(w[k], o, n).abs);
    SubstituteBack(w[j], o, n);
    SubstituteBack(w[k], o, n);
  }

  /** An entry below the old path that has not been moved yet is still there. */
  lemma StillThere(w: Table, w': Table, root: Path, o: Path, n: Path, moved: set<Rel>, k: Rel)
    requires Keyed(w, root) && Settles(w, o, n) && Substituted(w, w', root, o, n, moved)
    requires k in w && k !in moved && o <= w[k].abs
    ensures k in w' && w'[k] == w[k]
  {
    forall j | j in moved ensures NewKey(w, root, o, n, j) != k {
      NewKeysDiffer(w, root, o, n, j, k);
    }
  }

  /** Whatever lies below the old path in the new table has not been moved yet. */
  lemma NotMovedYet(w: Table, w': Table, root: Path, o: Path, n: Path, moved: set<Rel>, k: Rel)
    requires Keyed(w, root) && Settles(w, o, n) && Substituted(w, w', root, o, n, moved)
    requires k in w' && o <= w'[k].abs
    ensures k in w && k !in moved && w'[k] == w[k]
  {
    forall j | j in moved ensures NewKey(w, root, o, n, j) != k {
      }
  }

  /** The table after moving one entry to its new path. */
  function Moved(w: Table, root: Path, o: Path, n: Path, k: Rel): Table
    requires k in w && o <= w[k].abs
  {
    (w - {k})[NewKey(w, root, o, n, k) := Substitute(w[k], o, n)]
  }

  lemma MovedKeyed(w: Table, root: Path, o: Path, n: Path, k: Rel)
    requires Keyed(w, root) && k in w && o <= w[k].abs
    ensures Keyed(Moved(w, root, o, n, k), root)
  {
  }

  lemma MovedCount(w: Table, root: Path, o: Path, n: Path, k: Rel)
    requires k in w && o <= w[k].abs
    ensures |Moved(w, root, o, n, k)| <= |w|
  {
    var rest := w - {k};
    assert w == rest[k := w[k]];
    assert |w| == |rest| + 1;
  }

  /** An entry moved to where it is changes nothing. */
  lemma MovedNowhere(w: Table, root: Path, o: Path, k: Rel)
    requires Keyed(w, root) && k in w && o <= w[k].abs
    ensures Moved(w, root, o, o, k) == w
  {
    assert o + w[k].abs[|o|..] == w[k].abs;
  }

  lemma MoveOneMoved(w: Table, w': Table, root: Path, o: Path, n: Path, moved: set<Rel>, k: Rel, j: Rel)
    requires Keyed(w, root) && Settles(w, o, n) && Substituted(w, w', root, o, n, moved)
    requires k in w && k in w' && w'[k] == w[k] && k !in moved && o <= w[k].abs && j in moved + {k}
    ensures j in w && o <= w[j].abs
    ensures var w'' := Moved(w', root, o, n, k);
            NewKey(w, root, o, n, j) in w'' && w''[NewKey(w, root, o, n, j)] == Substitute(w[j], o, n)
  {
    if j != k {
      NewKeysInjective(w, root, o, n, j, k);
      NewKeysDiffer(w, root, o, n, j, k);
    }
  }

  lemma MoveOneRest(w: Table, w': Table, root: Path, o: Path, n: Path, moved: set<Rel>, k: Rel, r: Rel)
    requires Substituted(w, w', root, o, n, moved)
    requires k in w && k in w' && w'[k] == w[k] && k !in moved && o <= w[k].abs
    ensures AllBelow(w, o, moved + {k})
    ensures var w'' := Moved(w', root, o, n, k);
            && (r in w && r !in moved + {k} && !IsNewKey(w, root, o, n, moved + {k}, r) ==> r in w'' && w''[r] == w[r])
            && (r in w'' ==> IsNewKey(w, root, o, n, moved + {k}, r) || (r in w && r !in moved + {k}))
  {
    NewKeysMore(w, root, o, n, moved, k, r);
  }

  lemma SubstituteOne(w: Table, w': Table, root: Path, o: Path, n: Path, moved: set<Rel>, k: Rel)
    requires Keyed(w, root) && Settles(w, o, n) && Substituted(w, w', root, o, n, moved)
    requires k in w && k in w' && w'[k] == w[k] && k !in moved && o <= w[k].abs
    ensures Substituted(w, Moved(w', root, o, n, k), root, o, n, moved + {k})
  {
    forall j | j in moved + {k} {
      MoveOneMoved(w, w', root, o, n, moved, k, j);
    }
    forall r: Rel {
      MoveOneRest(w, w', root, o, n, moved, k, r);
    }
  }

  lemma NewKeysMore(w: Table, root: Path, o: Path, n: Path, moved: set<Rel>, k: Rel, r: Rel)
    requires AllBelow(w, o, moved) && k in w && o <= w[k].abs
    ensures AllBelow(w, o, moved + {k})
    ensures IsNewKey(w, root, o, n, moved + {k}, r) <==> IsNewKey(w, root, o, n, moved, r) || r == NewKey(w, root, o, n, k)
  {
    if IsNewKey(w, root, o, n, moved, r) {
      var j :| j in moved && NewKey(w, root, o, n, j) == r;
      assert j in moved + {k};
    }
    if r == NewKey(w, root, o, n, k) {
      assert k in moved + {k};
    }
  }

  lemma SubstitutedKeyed(w: Table, w': Table, root: Path, o: Path, n: Path, moved: set<Rel>)
    requires Keyed(w, root) && Substituted(w, w', root, o, n, moved)
    ensures Keyed(w', root)
  {
    forall r | r in w' ensures r == RelOf(root, w'[r].abs) {
      if IsNewKey(w, root, o, n, moved, r) {
        var k :| k in moved && NewKey(w, root, o, n, k) == r;
      }
    }
  }

  // ---------------------------------------------------------------- what a rename means

  ghost function NewKeys(w: Table, root: Path, o: Path, n: Path, moved: set<Rel>): set<Rel>
    requires AllBelow(w, o, moved)
  {
    set k | k in moved :: NewKey(w, root, o, n, k)
  }

  lemma {:induction false} NewKeysCount(w: Table, root: Path, o: Path, n: Path, moved: set<Rel>)
    requires Keyed(w, root) && AllBelow(w, o, moved)
    ensures |NewKeys(w, root, o, n, moved)| == |moved|
    decreases moved
  {
    if moved == {} {
      assert NewKeys(w, root, o, n, moved) == {};
    } else {
      var k :| k in moved;
      var rest := moved - {k};
      NewKeysCount(w, root, o, n, rest);
      forall j | j in rest ensures NewKey(w, root, o, n, j) != NewKey(w, root, o, n, k) {
        NewKeysInjective(w, root, o, n, j, k);
      }
      assert NewKeys(w, root, o, n, moved) == NewKeys(w, root, o, n, rest) + {NewKey(w, root, o, n, k)};
    }
  }

  /** The table keeps its size exactly when no other entry was at a new path. */
  lemma RenameKeepsCount(w: Table, w': Table, root: Path, o: Path, n: Path, moved: set<Rel>)
    requires Keyed(w, root) && Substituted(w, w', root, o, n, moved)
    ensures |w'| == |w| <==> forall k :: k in moved ==> NewKey(w, root, o, n, k) !in w.Keys - moved
  {
    var news := NewKeys(w, root, o, n, moved);
    var kept := w.Keys - moved;
    NewKeysCount(w, root, o, n, moved);
    assert w'.Keys == kept + news by {
      forall r ensures r in w'.Keys <==> r in kept + news {
        assert IsNewKey(w, root, o, n, moved, r) <==> r in news;
      }
    }
    assert moved <= w.Keys;
    assert |kept| == |w.Keys| - |moved|;
    assert |kept + news| == |kept| + |news| - |kept * news|;
    assert |w'.Keys| == |w'| && |w.Keys| == |w|;
    if |kept * news| == 0 {
      forall k | k in moved ensures NewKey(w, root, o, n, k) !in kept {
        assert NewKey(w, root, o, n, k) in news;
        assert NewKey(w, root, o, n, k) !in kept * news;
      }
    } else {
      var r :| r in kept * news;
      var k :| k in moved && NewKey(w, root, o, n, k) == r;
    }
  }

  lemma BelowNew(w: Table, w': Table, root: Path, o: Path, n: Path, j: Rel) returns (k: Rel)
    requires Keyed(w, root) && Unrelated(o, n) && Substituted(w, w', root, o, n, Below(w, o))
    requires forall r :: r in w ==> !(n <= w[r].abs)
    requires j in w' && n <= w'[j].abs
    ensures k in w && o <= w[k].abs && w'[j] == Substitute(w[k], o, n) && Substitute(w'[j], n, o) == w[k]
  {
    assert IsNewKey(w, root, o, n, Below(w, o), j);
    k :| k in Below(w, o) && NewKey(w, root, o, n, k) == j;
    SubstituteBack(w[k], o, n);
  }

  /** Renaming a directory to a place where nothing is watched, and back, restores the table. */
  lemma RenameBack(w: Table, w': Table, w'': Table, root: Path, o: Path, n: Path)
    requires Keyed(w, root) && Unrelated(o, n)
    requires forall r :: r in w ==> !(n <= w[r].abs)
    requires Substituted(w, w', root, o, n, Below(w, o))
    requires Substituted(w', w'', root, n, o, Below(w', n))
    ensures w'' == w
  {
    forall r: Rel {
      EntryBack(w, w', w'', root, o, n, r);
    }
    SameTables(w, w'');
  }

  lemma SameTables(w: Table, w': Table)
    requires forall r :: SameEntry(w, w', r)
    ensures w' == w
  {
    forall r ensures r in w' <==> r in w {
      assert SameEntry(w, w', r);
    }
    forall r | r in w ensures w'[r] == w[r] {
      assert SameEntry(w, w', r);
    }
  }

  predicate SameEntry(w: Table, w': Table, r: Rel) {
    if r in w then r in w' && w'[r] == w[r] else r !in w'
  }

  lemma EntryBack(w: Table, w': Table, w'': Table, root: Path, o: Path, n: Path, r: Rel)
    requires Keyed(w, root) && Unrelated(o, n)
    requires forall r :: r in w ==> !(n <= w[r].abs)
    requires Substituted(w, w', root, o, n, Below(w, o))
    requires Substituted(w', w'', root, n, o, Below(w', n))
    ensures SameEntry(w, w'', r)
  {
    if r in w {
      if o <= w[r].abs {
        MovedBack(w, w', w'', root, o, n, r);
      } else {
        KeptWhenFree(w, w', root, o, n, r);
        KeptGoingBack(w, w', w'', root, o, n, r);
      }
    } else if r in w'' {
      NothingNew(w, w', w'', root, o, n, r);
    }
  }

  lemma MovedBack(w: Table, w': Table, w'': Table, root: Path, o: Path, n: Path, r: Rel)
    requires Keyed(w, root) && Substituted(w, w', root, o, n, Below(w, o))
    requires Substituted(w', w'', root, n, o, Below(w', n))
    requires r in w && o <= w[r].abs
    ensures r in w'' && w''[r] == w[r]
  {
    assert r in Below(w, o);
    var j := NewKey(w, root, o, n, r);
    SubstituteBack(w[r], o, n);
    assert j in Below(w', n);
    assert NewKey(w', root, n, o, j) == r;
  }

  lemma NothingNew(w: Table, w': Table, w'': Table, root: Path, o: Path, n: Path, r: Rel)
    requires Keyed(w, root) && Unrelated(o, n) && Substituted(w, w', root, o, n, Below(w, o))
    requires forall r :: r in w ==> !(n <= w[r].abs)
    requires Substituted(w', w'', root, n, o, Below(w', n)) && r in w''
    ensures r in w
  {
    if IsNewKey(w', root, n, o, Below(w', n), r) {
      var j :| j in Below(w', n) && NewKey(w', root, n, o, j) == r;
      var k := BelowNew(w, w', root, o, n, j);
    } else {
      assert r in w' && r !in Below(w', n);
      forall k | k in Below(w, o) ensures NewKey(w, root, o, n, k) != r {
        SubstituteBack(w[k], o, n);
      }
    }
  }

  lemma KeptWhenFree(w: Table, w': Table, root: Path, o: Path, n: Path, r: Rel)
    requires Keyed(w, root) && Substituted(w, w', root, o, n, Below(w, o))
    requires forall k :: k in w ==> !(n <= w[k].abs)
    requires r in w && !(o <= w[r].abs)
    ensures r in w' && w'[r] == w[r]
  {
    forall k | k in Below(w, o) ensures NewKey(w, root, o, n, k) != r {
      SubstituteBack(w[k], o, n);
      RelInjective(root, Substitute(w[k], o, n).abs, w[r].abs);
    }
  }

  lemma KeptGoingBack(w: Table, w': Table, w'': Table, root: Path, o: Path, n: Path, r: Rel)
    requires Keyed(w, root) && Unrelated(o, n) && Substituted(w, w', root, o, n, Below(w, o))
    requires forall k :: k in w ==> !(n <= w[k].abs)
    requires Substituted(w', w'', root, n, o, Below(w', n))
    requires r in w && !(o <= w[r].abs) && r in w' && w'[r] == w[r]
    ensures r in w'' && w''[r] == w[r]
  {
    forall j | j in Below(w', n) ensures NewKey(w', root, n, o, j) != r {
      var k := BelowNew(w, w', root, o, n, j);
      RelInjective(root, w[k].abs, w[r].abs);
    }
  }

  // ---------------------------------------------------------------- what the notices say

  /** A notice gives a file's new path exactly when the file was renamed itself, not a directory above it. */
  lemma NoticeNamesNewPath(w: Table, order: seq<Rel>, id: nat, o: Path, n: Path, i: nat)
    requires i < |order| && (forall k :: k in order ==> k in w) && o <= w[order[i]].abs
    ensures RenameNotices(w, order, id, n)[i].newname == Substitute(w[order[i]], o, n).abs <==> w[order[i]].abs == o
  {
    var abs := w[order[i]].abs;
    assert n + abs[|o|..] == n <==> abs[|o|..] == [];
    assert abs == o + abs[|o|..];
  }

  /** None of the notices names the path that its file now has. */
  ghost predicate Misnamed(w: Table, order: seq<Rel>, o: Path, n: Path) {
    forall i :: 0 <= i < |order| ==> order[i] in w && o <= w[order[i]].abs && Substitute(w[order[i]], o, n).abs != n
  }

  /** When a directory is renamed, every notice is wrong. */
  lemma DirectoryMisnamed(w: Table, root: Path, order: seq<Rel>, o: Path, n: Path)
    requires Keyed(w, root) && RelOf(root, o) in w && w[RelOf(root, o)].isDir
    requires Enumerates(order, FilesOf(w, Below(w, o)))
    ensures Misnamed(w, order, o, n)
  {
    forall i | 0 <= i < |order|
      ensures order[i] in w && o <= w[order[i]].abs && Substitute(w[order[i]], o, n).abs != n
    {
      assert order[i] in SetOf(order);
      NoticeNamesNewPath(w, [order[i]], 0, o, n, 0);
    }
  }

  /** Renaming /r/a to /r/b, with the file f in it, tells that /r/a/f is now /r/b. */
  lemma MisnamedFile(id: nat)
    ensures var w := map[Rel(0, ["a"]) := File(["r", "a"], true), Rel(0, ["a", "f"]) := File(["r", "a", "f"], false)];
            && Keyed(w, ["r"])
            && RenameNotices(w, [Rel(0, ["a", "f"])], id, ["r", "b"]) == [Renamed(id, ["r", "a", "f"], ["r", "b"])]
            && Substitute(w[Rel(0, ["a", "f"])], ["r", "a"], ["r", "b"]).abs == ["r", "b", "f"]
  {
    OneBelowRoot("r", ["a"]);
    OneBelowRoot("r", ["a", "f"]);
    assert ["r"] + ["a"] == ["r", "a"] && ["r"] + ["a", "f"] == ["r", "a", "f"];
    assert ["r", "a", "f"][2..] == ["f"];
  }

  lemma OneBelowRoot(dir: string, names: seq<string>)
    ensures RelOf([dir], [dir] + names) == Rel(0, names)
  {
    assert [dir][1..] == [];
    assert ([dir] + names)[1..] == names;
  }
}
