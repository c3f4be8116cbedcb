/** The contract of the trees that process/nodegraph.go walks: a finite forest given by each process' parent. */
module Forest {
  import opened Collections
  import opened ProcessTypes

  datatype Tree = Node(pid: Pid, children: seq<Tree>)

  /** The preorder walk: every pid with its depth. */
  function Walk(f: seq<Tree>, depth: nat): seq<(nat, Pid)> {
    if f == [] then []
    else [(depth, f[0].pid)] + Walk(f[0].children, depth + 1) + Walk(f[1..], depth)
  }

  function Pids(f: seq<Tree>): seq<Pid> {
    if f == [] then []
    else [f[0].pid] + Pids(f[0].children) + Pids(f[1..])
  }

  function Roots(f: seq<Tree>): (r: seq<Pid>)
    ensures |r| == |f|
  {
    seq(|f|, i requires 0 <= i < |f| => f[i].pid)
  }

  /** Every (parent, child) pair of the forest, children in preorder; `above` is the parent of the roots. */
  function LinksBelow(above: seq<Pid>, f: seq<Tree>): seq<(Pid, Pid)>
    decreases f
  {
    if f == [] then []
    else
      (if above == [] then [] else [(above[|above|-1], f[0].pid)])
      + LinksBelow(above + [f[0].pid], f[0].children)
      + LinksBelow(above, f[1..])
  }

  function Links(f: seq<Tree>): seq<(Pid, Pid)> {
    LinksBelow([], f)
  }

  /** The path from the root down to, but not including, `pid`; empty for a pid outside the forest. */
  function Ancestors(f: seq<Tree>, pid: Pid): (r: seq<Pid>)
    ensures forall a :: a in r ==> a in Pids(f)
  {
    if f == [] then []
    else if pid == f[0].pid then []
    else if pid in Pids(f[0].children) then [f[0].pid] + Ancestors(f[0].children, pid)
    else Ancestors(f[1..], pid)
  }

  function Depth(f: seq<Tree>, pid: Pid): nat {
    |Ancestors(f, pid)|
  }

  function Children(links: seq<(Pid, Pid)>): (r: seq<Pid>)
    ensures |r| == |links|
  {
    seq(|links|, i requires 0 <= i < |links| => links[i].1)
  }

  lemma ChildrenConcat(a: seq<(Pid, Pid)>, b: seq<(Pid, Pid)>)
    ensures multiset(Children(a + b)) == multiset(Children(a)) + multiset(Children(b))
  {
    assert Children(a + b) == Children(a) + Children(b);
  }

  /** Below a parent, every node is the child of exactly one link. */
  lemma {:induction false} LinksBelowParent(above: seq<Pid>, f: seq<Tree>)
    requires above != []
    ensures multiset(Children(LinksBelow(above, f))) == multiset(Pids(f))
    decreases f
  {
    if f != [] {
      var t, rest := f[0], f[1..];
      var top := [(above[|above|-1], t.pid)];
      LinksBelowParent(above + [t.pid], t.children);
      LinksBelowParent(above, rest);
      ChildrenConcat(top + LinksBelow(above + [t.pid], t.children), LinksBelow(above, rest));
      ChildrenConcat(top, LinksBelow(above + [t.pid], t.children));
      assert Children(top) == [t.pid];
    }
  }

  lemma FirstLinks(f: seq<Tree>)
    requires f != []
    ensures Links(f) == LinksBelow([f[0].pid], f[0].children) + Links(f[1..])
  {
    assert [] + [f[0].pid] == [f[0].pid];
  }

  lemma FirstPids(f: seq<Tree>)
    requires f != []
    ensures multiset(Pids(f)) == multiset{f[0].pid} + multiset(Pids(f[0].children)) + multiset(Pids(f[1..]))
  {
    assert Pids(f) == [f[0].pid] + Pids(f[0].children) + Pids(f[1..]);
  }

  lemma FirstRoot(f: seq<Tree>)
    requires f != []
    ensures multiset(Roots(f)) == multiset{f[0].pid} + multiset(Roots(f[1..]))
  {
    assert Roots(f) == [f[0].pid] + Roots(f[1..]);
  }

  lemma FirstTree(f: seq<Tree>)
    requires f != []
    ensures multiset(Children(Links(f))) == multiset(Pids(f[0].children)) + multiset(Children(Links(f[1..])))
  {
    LinksBelowParent([f[0].pid], f[0].children);
    FirstLinks(f);
    ChildrenConcat(LinksBelow([f[0].pid], f[0].children), Links(f[1..]));
  }

  /** Every node is a root or the child of exactly one link. */
  lemma {:induction false} LinksPartition(f: seq<Tree>)
    ensures multiset(Children(Links(f))) + multiset(Roots(f)) == multiset(Pids(f))
  {
    if f != [] {
      FirstTree(f);
      FirstPids(f);
      FirstRoot(f);
      LinksPartition(f[1..]);
      Regroup(multiset(Pids(f[0].children)), multiset(Children(Links(f[1..]))), multiset(Roots(f[1..])), multiset{f[0].pid});
    }
  }

  lemma Regroup(a: multiset<Pid>, b: multiset<Pid>, r: multiset<Pid>, x: multiset<Pid>)
    ensures a + b + (x + r) == x + a + (b + r)
  {
  }

  lemma DistinctParts<T>(a: seq<T>, b: seq<T>)
    requires Distinct(a + b)
    ensures Distinct(a) && Distinct(b)
    ensures forall x :: x in a ==> x !in b
  {
    forall i, j | 0 <= i < j < |a| ensures a[i] != a[j] {
      assert (a + b)[i] != (a + b)[j];
    }
    forall i, j | 0 <= i < j < |b| ensures b[i] != b[j] {
      assert (a + b)[|a| + i] != (a + b)[|a| + j];
    }
    forall x | x in a ensures x !in b {
      var i :| 0 <= i < |a| && a[i] == x;
      forall j | 0 <= j < |b| ensures b[j] != x {
        assert (a + b)[i] != (a + b)[|a| + j];
      }
    }
  }

  lemma SplitDistinct(f: seq<Tree>)
    requires f != [] && Distinct(Pids(f))
    ensures Distinct(Pids(f[0].children)) && Distinct(Pids(f[1..]))
    ensures f[0].pid !in Pids(f[0].children) && f[0].pid !in Pids(f[1..])
    ensures forall p :: p in Pids(f[0].children) ==> p !in Pids(f[1..])
  {
    DistinctParts([f[0].pid] + Pids(f[0].children), Pids(f[1..]));
    DistinctParts([f[0].pid], Pids(f[0].children));
    assert f[0].pid in [f[0].pid] + Pids(f[0].children);
    forall p | p in Pids(f[0].children) ensures p !in Pids(f[1..]) {
      assert p in [f[0].pid] + Pids(f[0].children);
    }
  }

  /** A link's child sits one level below its parent. */
  lemma {:induction false} LinkDepth(above: seq<Pid>, f: seq<Tree>, a: Pid, b: Pid)
    requires Distinct(Pids(f)) && (a, b) in LinksBelow(above, f)
    ensures b in Pids(f)
    ensures (a in Pids(f) && Depth(f, b) == Depth(f, a) + 1)
            || (above != [] && a == above[|above|-1] && Depth(f, b) == 0)
    decreases f
  {
    SplitDistinct(f);
    var t, rest := f[0], f[1..];
    if above != [] && (a, b) == (above[|above|-1], t.pid) {
    } else if (a, b) in LinksBelow(above + [t.pid], t.children) {
      LinkDepth(above + [t.pid], t.children, a, b);
    } else {
      LinkDepth(above, rest, a, b);
    }
  }

  /** `f` organises `keys` by the given parents: a node hangs under its parent when that is present too. */
  ghost predicate IsForest(f: seq<Tree>, keys: set<Pid>, parent: map<Pid, Pid>) {
    && Distinct(Pids(f))
    && SetOf(Pids(f)) == keys
    && forall a, b :: (a, b) in Links(f) <==> a in keys && b in keys && b in parent && parent[b] == a
  }

  /** The nodes of the smaller of two forests over the same parents keep their relative depth. */
  lemma SubforestDepth(f: seq<Tree>, keys: set<Pid>, g: seq<Tree>, keys': set<Pid>, parent: map<Pid, Pid>, a: Pid, b: Pid)
    requires IsForest(f, keys, parent) && IsForest(g, keys', parent)
    requires (a, b) in Links(g) && a in keys && b in keys
    ensures Depth(f, b) == Depth(f, a) + 1
  {
    assert (a, b) in Links(f);
    LinkDepth([], f, a, b);
  }

  // ---------------------------------------------------------------- the parent stack

  /** The stack after a visit to `pid` at `depth`, or nothing when the code would index outside it. */
  function Push(parents: seq<Pid>, depth: nat, pid: Pid): (r: seq<Pid>)
    requires depth <= |parents|
    ensures |r| == depth + 1
  {
    parents[..depth] + [pid]
  }

  /** What a walk does to the stack, and the links it reads off the stack; `Broken` when it indexes outside. */
  datatype Outcome = Broken | Stack(parents: seq<Pid>, links: seq<(Pid, Pid)>)

  function Run(parents: seq<Pid>, walk: seq<(nat, Pid)>): Outcome
    decreases walk
  {
    if walk == [] then Stack(parents, [])
    else
      if walk[0].0 > |parents| then Broken
      else Prepend(TopLink(parents, walk[0].0, walk[0].1), Run(Push(parents, walk[0].0, walk[0].1), walk[1..]))
  }

  function TopLink(parents: seq<Pid>, depth: nat, pid: Pid): seq<(Pid, Pid)>
    requires depth <= |parents|
  {
    if depth == 0 then [] else [(parents[depth-1], pid)]
  }

  function Prepend(ls: seq<(Pid, Pid)>, o: Outcome): Outcome {
    if o.Broken? then Broken else Stack(o.parents, ls + o.links)
  }

  lemma RunStep(parents: seq<Pid>, walk: seq<(nat, Pid)>)
    requires walk != [] && Run(parents, walk).Stack?
    ensures walk[0].0 <= |parents|
    ensures Run(Push(parents, walk[0].0, walk[0].1), walk[1..]).Stack?
    ensures Run(parents, walk).links
            == TopLink(parents, walk[0].0, walk[0].1) + Run(Push(parents, walk[0].0, walk[0].1), walk[1..]).links
  {
  }

  lemma PrependTwice(a: seq<(Pid, Pid)>, b: seq<(Pid, Pid)>, o: Outcome)
    ensures Prepend(a, Prepend(b, o)) == Prepend(a + b, o)
  {
    if o.Stack? {
      assert a + (b + o.links) == a + b + o.links;
    }
  }

  lemma {:induction false} RunConcat(parents: seq<Pid>, v: seq<(nat, Pid)>, w: seq<(nat, Pid)>)
    requires Run(parents, v).Stack?
    ensures Run(parents, v + w) == Prepend(Run(parents, v).links, Run(Run(parents, v).parents, w))
    decreases v
  {
    if v == [] {
      assert v + w == w;
    } else {
      assert (v + w)[1..] == v[1..] + w && (v + w)[0] == v[0];
      assert v[0].0 <= |parents|;
      var top := Push(parents, v[0].0, v[0].1);
      PrependTwice(TopLink(parents, v[0].0, v[0].1), Run(top, v[1..]).links, Run(Run(top, v[1..]).parents, w));
      RunConcat(Push(parents, v[0].0, v[0].1), v[1..], w);
    }
  }

  /** A preorder walk never leaves the stack, restores what was below its depth, and reads off exactly the links. */
  lemma {:induction false} RunWalk(parents: seq<Pid>, f: seq<Tree>, depth: nat)
    requires depth <= |parents|
    ensures Run(parents, Walk(f, depth)).Stack?
    ensures Run(parents, Walk(f, depth)).links == LinksBelow(parents[..depth], f)
    ensures |Run(parents, Walk(f, depth)).parents| >= depth
    ensures Run(parents, Walk(f, depth)).parents[..depth] == parents[..depth]
    decreases f
  {
    if f != [] {
      var t, rest := f[0], f[1..];
      var head := [(depth, t.pid)];
      var top := Push(parents, depth, t.pid);
      assert Run(parents, head).Stack? && Run(parents, head).parents == top by {
        assert head[1..] == [];
      }
      RunWalk(top, t.children, depth + 1);
      assert top[..depth + 1] == parents[..depth] + [t.pid];
      RunConcat(parents, head, Walk(t.children, depth + 1));
      var after := Run(parents, head + Walk(t.children, depth + 1)).parents;
      assert after[..depth] == after[..depth+1][..depth] == parents[..depth];
      RunWalk(after, rest, depth);
      RunConcat(parents, head + Walk(t.children, depth + 1), Walk(rest, depth));
    }
  }

  /** In the middle of the walk of `f`: `done` are the links read so far, `rest` is still to be visited. */
  ghost predicate OnTrack(f: seq<Tree>, done: seq<(Pid, Pid)>, parents: seq<Pid>, rest: seq<(nat, Pid)>) {
    Run(parents, rest).Stack? && done + Run(parents, rest).links == Links(f)
  }

  lemma TrackStart(f: seq<Tree>)
    ensures OnTrack(f, [], [], Walk(f, 0))
  {
    RunWalk([], f, 0);
  }

  lemma TrackStep(f: seq<Tree>, done: seq<(Pid, Pid)>, parents: seq<Pid>, rest: seq<(nat, Pid)>)
    requires rest != [] && OnTrack(f, done, parents, rest)
    ensures rest[0].0 <= |parents|
    ensures OnTrack(f, done + TopLink(parents, rest[0].0, rest[0].1), Push(parents, rest[0].0, rest[0].1), rest[1..])
  {
    RunStep(parents, rest);
    var top, more := TopLink(parents, rest[0].0, rest[0].1), Run(Push(parents, rest[0].0, rest[0].1), rest[1..]).links;
    assert done + (top + more) == done + top + more;
  }
}
