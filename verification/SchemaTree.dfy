/** The message tree and the builder text that message/protobuf.go derives from a nested schema. */
module SchemaTree {
  import opened Collections
  import opened Schema
  import opened SchemaRoundTrip

  // ---------------------------------------------------------------- the tree in the arena

  datatype Tree = Tree(message: TypeName, fields: seq<Field>, children: map<string, Tree>)

  /** The tree below node `i`. */
  ghost function Built(nodes: seq<Node>, i: nat): Tree
    requires ValidNodes(nodes) && i < |nodes|
    decreases |nodes| - i
  {
    Tree(nodes[i].message, nodes[i].fields, map t | t in nodes[i].children :: Built(nodes, nodes[i].children[t]))
  }

  lemma {:induction false} BuiltStable(nodes: seq<Node>, nodes': seq<Node>, i: nat)
    requires ValidNodes(nodes) && ValidNodes(nodes') && i < |nodes| <= |nodes'|
    requires forall j :: i <= j < |nodes| ==> nodes'[j] == nodes[j]
    ensures Built(nodes', i) == Built(nodes, i)
    decreases |nodes| - i
  {
    forall t | t in nodes[i].children
      ensures Built(nodes', nodes[i].children[t]) == Built(nodes, nodes[i].children[t])
    {
      BuiltStable(nodes, nodes', nodes[i].children[t]);
    }
  }

  // ---------------------------------------------------------------- the tree of a schema

  function FieldsOf(key: Key, depth: nat, ds: seq<Decl>): seq<Field> {
    if ds == [] then [] else [Sliced(FieldOf(key, depth, ds[0]))] + FieldsOf(key, depth, ds[1..])
  }

  /** The structs among the members, by type name: a later one replaces an earlier one of the same type. */
  function ChildrenOf(key: Key, depth: nat, ds: seq<Decl>, above: map<string, Tree>): map<string, Tree>
    decreases ds
  {
    if ds == [] then above
    else if ds[0].Struct? then
      ChildrenOf(key, depth, ds[1..],
        above[ds[0].typ := Tree(Nested(ds[0].typ), FieldsOf(key, depth + 1, ds[0].members), ChildrenOf(key, depth + 1, ds[0].members, map[]))])
    else ChildrenOf(key, depth, ds[1..], above)
  }

  function TreeOf(key: Key, depth: nat, d: Decl): Tree
    requires d.Struct?
  {
    Tree(Nested(d.typ), FieldsOf(key, depth + 1, d.members), ChildrenOf(key, depth + 1, d.members, map[]))
  }

  /** Where a struct of this type last occurs. */
  lemma {:induction false} LastOfType(key: Key, depth: nat, ds: seq<Decl>, above: map<string, Tree>, typ: string) returns (last: Option<nat>)
    ensures last.None? ==> forall i :: 0 <= i < |ds| ==> !(ds[i].Struct? && ds[i].typ == typ)
    ensures last.None? ==> (typ in ChildrenOf(key, depth, ds, above) <==> typ in above)
    ensures last.None? && typ in above ==> ChildrenOf(key, depth, ds, above)[typ] == above[typ]
    ensures last.Some? ==> last.value < |ds| && ds[last.value].Struct? && ds[last.value].typ == typ
    ensures last.Some? ==> forall i :: last.value < i < |ds| ==> !(ds[i].Struct? && ds[i].typ == typ)
    ensures last.Some? ==> typ in ChildrenOf(key, depth, ds, above)
                           && ChildrenOf(key, depth, ds, above)[typ] == TreeOf(key, depth, ds[last.value])
  {
    if ds == [] {
      last := None;
    } else {
      var above' := if ds[0].Struct? then above[ds[0].typ := TreeOf(key, depth, ds[0])] else above;
      var later := LastOfType(key, depth, ds[1..], above', typ);
      last := if later.Some? then Some(later.value + 1) else if ds[0].Struct? && ds[0].typ == typ then Some(0) else None;
      forall i | (if last.Some? then last.value < i else 0 <= i) && i < |ds| ensures !(ds[i].Struct? && ds[i].typ == typ) {
        assert i > 0 ==> ds[i] == ds[1..][i-1];
      }
    }
  }

  /** The children hold this struct's tree under its type name. */
  predicate Kept(key: Key, depth: nat, ds: seq<Decl>, d: Decl) {
    d.Struct? ==> d.typ in ChildrenOf(key, depth, ds, map[]) && ChildrenOf(key, depth, ds, map[])[d.typ] == TreeOf(key, depth, d)
  }

  predicate SameTypeSameTree(key: Key, depth: nat, d: Decl, d': Decl) {
    d.Struct? && d'.Struct? && d.typ == d'.typ ==> TreeOf(key, depth, d) == TreeOf(key, depth, d')
  }

  /** The tree keeps every struct of the schema exactly when, under one parent, a type name determines the struct. */
  lemma ChildrenFaithful(key: Key, depth: nat, ds: seq<Decl>)
    ensures (forall d :: d in ds ==> Kept(key, depth, ds, d)) <==>
            (forall d, d' :: d in ds && d' in ds ==> SameTypeSameTree(key, depth, d, d'))
  {
    if forall d, d' :: d in ds && d' in ds ==> SameTypeSameTree(key, depth, d, d') {
      forall d | d in ds ensures Kept(key, depth, ds, d) {
        if d.Struct? {
          var last := LastOfType(key, depth, ds, map[], d.typ);
          assert d in ds && ds[last.value] in ds;
          assert SameTypeSameTree(key, depth, d, ds[last.value]);
        }
      }
    }
    if forall d :: d in ds ==> Kept(key, depth, ds, d) {
      forall d, d' | d in ds && d' in ds ensures SameTypeSameTree(key, depth, d, d') {
        assert Kept(key, depth, ds, d) && Kept(key, depth, ds, d');
      }
    }
  }

  lemma NamesDiffer(key: Key, depth: nat, x: Decl, y: Decl)
    requires x.Member? && y.Member? && !x.repeated && !y.repeated && |x.name| == |y.name| == 1 && x.name != y.name
    ensures Sliced(FieldOf(key, depth, x)) != Sliced(FieldOf(key, depth, y))
  {
    var a, b := FieldOf(key, depth, x).name, FieldOf(key, depth, y).name;
    assert a[2 * depth] == x.name[0] && b[2 * depth] == y.name[0];
    assert x.name[0] != y.name[0];
  }

  /** Two structs of one type name with different members: one of the two is lost. */
  lemma SharedTypeName(key: Key, depth: nat, a: Decl, b: Decl, x: Decl, y: Decl)
    requires x == Member("X", false, "int", "int") && y == Member("Y", false, "int", "int")
    requires a == Struct("A", false, "T", [x]) && b == Struct("B", false, "T", [y])
    ensures !Kept(key, depth, [a, b], a) || !Kept(key, depth, [a, b], b)
  {
    assert "X"[0] != "Y"[0];
    NamesDiffer(key, depth + 1, x, y);
    assert FieldsOf(key, depth + 1, [x])[0] != FieldsOf(key, depth + 1, [y])[0];
    assert !SameTypeSameTree(key, depth, a, b);
    assert [a, b][0] == a && [a, b][1] == b;
    ChildrenFaithful(key, depth, [a, b]);
  }

  // ---------------------------------------------------------------- the descent builds the tree

  /** From `s` to `r` the current node got some entries, new nodes were added, and nothing else changed. */
  ghost predicate Grown(s: State, r: State, entries: seq<Field>) {
    && s.node < |s.nodes| <= |r.nodes|
    && r.node == s.node && r.tree == s.tree && r.qualifiers == s.qualifiers
    && (forall j :: 0 <= j < |s.nodes| && j != s.node ==> r.nodes[j] == s.nodes[j])
    && r.nodes[s.node].parent == s.nodes[s.node].parent && r.nodes[s.node].message == s.nodes[s.node].message
    && r.nodes[s.node].fields == s.nodes[s.node].fields + entries
  }

  lemma GrownTwice(s: State, m: State, r: State, a: seq<Field>, b: seq<Field>)
    requires Grown(s, m, a) && Grown(m, r, b)
    ensures Grown(s, r, a + b)
  {
    assert s.nodes[s.node].fields + a + b == s.nodes[s.node].fields + (a + b);
  }

  lemma GrownStruct(s: State, f: Field, v: State, inner: seq<Field>)
    requires InMessage(s) && Grown(Enter(s, f), v, inner) && InMessage(v) && v.depth > 0
    ensures Grown(s, PopOne(v), [Sliced(f)])
  {
    var u := Enter(s, f);
    assert v.nodes[s.node] == u.nodes[s.node];
    assert u.nodes[u.node].parent == Some(s.node);
    assert v.qualifiers[..|v.qualifiers|-1] == s.qualifiers;
  }

  lemma AssignGrows(s: State, f: Field)
    requires Calm(s)
    ensures Grown(s, Assign(s, f), [Sliced(f)])
  {
  }

  /** The descent over one member. */
  function AfterOne(s: State, key: Key, d: Decl): (r: State)
    requires Calm(s)
    ensures Calm(r) && r.depth == s.depth && r.prev == s.prev
  {
    var f := FieldOf(key, s.depth, d);
    if d.Struct? then PopOne(After(Enter(s, f), key, d.members)) else Assign(s, f)
  }

  lemma AfterFirst(s: State, key: Key, ds: seq<Decl>)
    requires Calm(s) && ds != []
    ensures After(s, key, ds) == After(AfterOne(s, key, ds[0]), key, ds[1..])
  {
  }

  lemma {:induction false} AfterGrows(s: State, key: Key, ds: seq<Decl>)
    requires Calm(s)
    ensures Grown(s, After(s, key, ds), FieldsOf(key, s.depth, ds))
    decreases ds, 1
  {
    if ds != [] {
      AfterFirst(s, key, ds);
      OneGrows(s, key, ds[0]);
      AfterGrows(AfterOne(s, key, ds[0]), key, ds[1..]);
      GrownTwice(s, AfterOne(s, key, ds[0]), After(s, key, ds), [Sliced(FieldOf(key, s.depth, ds[0]))], FieldsOf(key, s.depth, ds[1..]));
    }
  }

  lemma {:induction false} OneGrows(s: State, key: Key, d: Decl)
    requires Calm(s)
    ensures Grown(s, AfterOne(s, key, d), [Sliced(FieldOf(key, s.depth, d))])
    decreases d, 0
  {
    var f := FieldOf(key, s.depth, d);
    if d.Struct? {
      AfterGrows(Enter(s, f), key, d.members);
      GrownStruct(s, f, After(Enter(s, f), key, d.members), FieldsOf(key, s.depth + 1, d.members));
    } else {
      AssignGrows(s, f);
    }
  }

  lemma EnterBuilds(s: State, s': State, typ: string)
    requires InMessage(s) && ValidNodes(s'.nodes) && |s.nodes| < |s'.nodes|
    requires s'.nodes[s.node].children == s.nodes[s.node].children[typ := |s.nodes|]
    requires forall j :: 0 <= j < |s.nodes| && j != s.node ==> s'.nodes[j] == s.nodes[j]
    ensures Built(s'.nodes, s.node).children == Built(s.nodes, s.node).children[typ := Built(s'.nodes, |s.nodes|)]
  {
    forall t | t in s.nodes[s.node].children && t != typ {
      ChildStable(s, s', t);
    }
  }

  lemma ChildStable(s: State, s': State, t: string)
    requires InMessage(s) && ValidNodes(s'.nodes) && |s.nodes| < |s'.nodes|
    requires forall j :: 0 <= j < |s.nodes| && j != s.node ==> s'.nodes[j] == s.nodes[j]
    requires t in s.nodes[s.node].children
    ensures Built(s'.nodes, s.nodes[s.node].children[t]) == Built(s.nodes, s.nodes[s.node].children[t])
  {
    BuiltStable(s.nodes, s'.nodes, s.nodes[s.node].children[t]);
  }

  lemma AssignBuilds(s: State, f: Field)
    requires Calm(s)
    ensures Built(Assign(s, f).nodes, s.node).children == Built(s.nodes, s.node).children
  {
    var nodes' := Assign(s, f).nodes;
    var kids := s.nodes[s.node].children;
    forall t | t in kids ensures Built(nodes', kids[t]) == Built(s.nodes, kids[t]) {
      BuiltStable(s.nodes, nodes', kids[t]);
    }
  }

  lemma StructBuilds(s: State, key: Key, d: Decl, v: State)
    requires Calm(s) && d.Struct? && InMessage(v)
    requires Grown(Enter(s, FieldOf(key, s.depth, d)), v, FieldsOf(key, s.depth + 1, d.members))
    requires Built(v.nodes, v.node).children == ChildrenOf(key, s.depth + 1, d.members, map[])
    ensures s.node < |v.nodes|
    ensures Built(v.nodes, s.node).children == Built(s.nodes, s.node).children[d.typ := TreeOf(key, s.depth, d)]
  {
    var u := Enter(s, FieldOf(key, s.depth, d));
    var n := |s.nodes|;
    assert u.nodes[n] == Node(Nested(d.typ), Some(s.node), map[], []);
    assert v.nodes[n].fields == FieldsOf(key, s.depth + 1, d.members);
    assert Built(v.nodes, n) == TreeOf(key, s.depth, d);
    assert v.nodes[s.node] == u.nodes[s.node];
    EnterBuilds(s, v, d.typ);
  }

  function WithChild(key: Key, depth: nat, d: Decl, above: map<string, Tree>): map<string, Tree> {
    if d.Struct? then above[d.typ := TreeOf(key, depth, d)] else above
  }

  lemma {:induction false} AfterTree(s: State, key: Key, ds: seq<Decl>)
    requires Calm(s)
    ensures var r := After(s, key, ds);
            s.node < |r.nodes| && Built(r.nodes, s.node).children == ChildrenOf(key, s.depth, ds, Built(s.nodes, s.node).children)
    decreases ds, 1
  {
    if ds != [] {
      var m := AfterOne(s, key, ds[0]);
      AfterFirst(s, key, ds);
      OneGrows(s, key, ds[0]);
      OneTree(s, key, ds[0]);
      AfterTree(m, key, ds[1..]);
      assert ChildrenOf(key, s.depth, ds, Built(s.nodes, s.node).children)
          == ChildrenOf(key, s.depth, ds[1..], WithChild(key, s.depth, ds[0], Built(s.nodes, s.node).children));
    }
  }

  lemma {:induction false} OneTree(s: State, key: Key, d: Decl)
    requires Calm(s)
    ensures var r := AfterOne(s, key, d);
            s.node < |r.nodes| && Built(r.nodes, s.node).children == WithChild(key, s.depth, d, Built(s.nodes, s.node).children)
    decreases d, 0
  {
    var f := FieldOf(key, s.depth, d);
    if d.Struct? {
      var u := Enter(s, f);
      AfterGrows(u, key, d.members);
      AfterTree(u, key, d.members);
      assert Built(u.nodes, u.node).children == map[];
      StructBuilds(s, key, d, After(u, key, d.members));
    } else {
      AssignBuilds(s, f);
    }
  }

  // ---------------------------------------------------------------- the descent writes the builders

  /** Repeated structs occur only at the top level of the message. */
  predicate NoSlices(ds: seq<Decl>)
    decreases ds
  {
    ds == [] || ((ds[0].Struct? ==> !ds[0].repeated && NoSlices(ds[0].members)) && NoSlices(ds[1..]))
  }

  predicate TopSlices(ds: seq<Decl>) {
    ds == [] || ((ds[0].Struct? ==> NoSlices(ds[0].members)) && TopSlices(ds[1..]))
  }

  /** The builder text, written recursively: each struct's builder encloses its members, a repeated struct's
      sits in a loop, and `accessor` is the path from `src` to the struct that holds the members. */
  function Emit(key: Key, ds: seq<Decl>, depth: nat, accessor: seq<string>, types: seq<TypeName>): seq<Token>
    decreases ds
  {
    if ds == [] then []
    else
      var f := FieldOf(key, depth, ds[0]);
      (match ds[0]
       case Member(name, _, _, _) => [Scalar(FormOf(Sliced(f)), name, accessor)]
       case Struct(name, repeated, typ, members) =>
         var inner := Emit(key, members, depth + 1, if repeated then [] else accessor + [name], types + [Nested(typ)]);
         if repeated then [SliceOpen(name, types + [Nested(typ)])] + inner + [BuildClose, SliceClose]
         else [StructOpen(name, types + [Nested(typ)])] + inner + [BuildClose])
      + Emit(key, ds[1..], depth, accessor, types)
  }

  function Accessor(s: State): seq<string>
    requires s.doSlice ==> s.qualifiers != []
  {
    if s.doSlice then s.qualifiers[1..] else s.qualifiers
  }

  lemma GrownPath(s: State, r: State, entries: seq<Field>)
    requires InMessage(s) && InMessage(r) && Grown(s, r, entries)
    ensures Path(r.nodes, r.node) == Path(s.nodes, s.node)
  {
    LevelsKept(s.nodes, r.nodes, s.node);
  }

  lemma EnterPath(s: State, f: Field)
    requires InMessage(s)
    ensures Path(Enter(s, f).nodes, |s.nodes|) == Path(s.nodes, s.node) + [Nested(f.typ)]
  {
    LevelsKept(s.nodes, Enter(s, f).nodes, s.node);
  }

  lemma EnterAccessor(s: State, key: Key, d: Decl)
    requires Calm(s) && d.Struct? && WellNamed(d.name) && (s.depth > 0 ==> !d.repeated)
    ensures Accessor(Enter(s, FieldOf(key, s.depth, d))) == if d.repeated then [] else Accessor(s) + [d.name]
  {
    EntryOf(key, s.depth, d);
  }

  lemma EmitStruct(key: Key, d: Decl, depth: nat, accessor: seq<string>, types: seq<TypeName>)
    requires d.Struct?
    ensures Emit(key, [d], depth, accessor, types) ==
            var inner := Emit(key, d.members, depth + 1, if d.repeated then [] else accessor + [d.name], types + [Nested(d.typ)]);
            if d.repeated then [SliceOpen(d.name, types + [Nested(d.typ)])] + inner + [BuildClose, SliceClose]
            else [StructOpen(d.name, types + [Nested(d.typ)])] + inner + [BuildClose]
  {
    assert [d][1..] == [];
    assert Emit(key, [d][1..], depth, accessor, types) == [];
  }

  function Opener(d: Decl, types: seq<TypeName>): Token {
    if d.repeated then SliceOpen(d.name, types) else StructOpen(d.name, types)
  }

  function Closers(d: Decl): seq<Token> {
    if d.repeated then [BuildClose, SliceClose] else [BuildClose]
  }

  lemma EnterOpens(s: State, key: Key, d: Decl)
    requires Calm(s) && d.Struct? && WellNamed(d.name)
    ensures var u := Enter(s, FieldOf(key, s.depth, d));
            u.doSlice == (s.doSlice || d.repeated) && u.out == s.out + [Opener(d, Path(s.nodes, s.node) + [Nested(d.typ)])]
  {
    EntryOf(key, s.depth, d);
    EnterPath(s, FieldOf(key, s.depth, d));
  }

  lemma PopCloses(s: State, d: Decl, v: State)
    requires Calm(s) && d.Struct? && (s.depth > 0 ==> !d.repeated)
    requires InMessage(v) && v.depth == s.depth + 1 && v.doSlice == (s.doSlice || d.repeated)
    ensures PopOne(v).doSlice == s.doSlice && PopOne(v).out == v.out + Closers(d)
  {
  }

  /** Leaving a struct closes exactly what entering it opened. */
  lemma StructText(s: State, key: Key, d: Decl, v: State, inner: seq<Token>)
    requires Calm(s) && d.Struct? && WellNamed(d.name) && (s.depth > 0 ==> !d.repeated)
    requires inner == Emit(key, d.members, s.depth + 1, if d.repeated then [] else Accessor(s) + [d.name], Path(s.nodes, s.node) + [Nested(d.typ)])
    requires InMessage(v) && v.depth == s.depth + 1
    requires var u := Enter(s, FieldOf(key, s.depth, d)); v.doSlice == u.doSlice && v.out == u.out + inner
    ensures PopOne(v).doSlice == s.doSlice
    ensures PopOne(v).out == s.out + Emit(key, [d], s.depth, Accessor(s), Path(s.nodes, s.node))
  {
    EnterOpens(s, key, d);
    PopCloses(s, d, v);
    EmitStruct(key, d, s.depth, Accessor(s), Path(s.nodes, s.node));
    Enclose(s.out, Opener(d, Path(s.nodes, s.node) + [Nested(d.typ)]), inner, Closers(d));
  }

  lemma Enclose(out: seq<Token>, t: Token, inner: seq<Token>, closing: seq<Token>)
    ensures out + [t] + inner + closing == out + ([t] + inner + closing)
  {
  }

  lemma EmitFirst(key: Key, ds: seq<Decl>, depth: nat, accessor: seq<string>, types: seq<TypeName>)
    requires ds != []
    ensures Emit(key, ds, depth, accessor, types) == Emit(key, [ds[0]], depth, accessor, types) + Emit(key, ds[1..], depth, accessor, types)
  {
    assert [ds[0]][1..] == [];
  }

  /** The descent writes what the recursive writer writes. */
  lemma {:induction false} AfterText(s: State, key: Key, ds: seq<Decl>)
    requires Calm(s) && WellFormed(ds)
    requires if s.depth == 0 then TopSlices(ds) else NoSlices(ds)
    ensures var r := After(s, key, ds);
            r.doSlice == s.doSlice && r.out == s.out + Emit(key, ds, s.depth, Accessor(s), Path(s.nodes, s.node))
    decreases ds, 1
  {
    if ds != [] {
      var m, path := AfterOne(s, key, ds[0]), Path(s.nodes, s.node);
      AfterFirst(s, key, ds);
      EmitFirst(key, ds, s.depth, Accessor(s), path);
      OneText(s, key, ds[0]);
      OneGrows(s, key, ds[0]);
      GrownPath(s, m, [Sliced(FieldOf(key, s.depth, ds[0]))]);
      AfterText(m, key, ds[1..]);
      Join(s.out, Emit(key, [ds[0]], s.depth, Accessor(s), path), Emit(key, ds[1..], s.depth, Accessor(s), path));
    }
  }

  lemma Join(out: seq<Token>, a: seq<Token>, b: seq<Token>)
    ensures out + a + b == out + (a + b)
  {
  }

  lemma {:induction false} OneText(s: State, key: Key, d: Decl)
    requires Calm(s) && WellNamed(d.name) && (d.Struct? ==> WellFormed(d.members) && NoSlices(d.members) && (s.depth > 0 ==> !d.repeated))
    ensures var r := AfterOne(s, key, d);
            r.doSlice == s.doSlice && r.out == s.out + Emit(key, [d], s.depth, Accessor(s), Path(s.nodes, s.node))
    decreases d, 0
  {
    var f := FieldOf(key, s.depth, d);
    if d.Struct? {
      var u := Enter(s, f);
      EnterAccessor(s, key, d);
      EnterPath(s, f);
      AfterText(u, key, d.members);
      StructText(s, key, d, After(u, key, d.members), Emit(key, d.members, u.depth, Accessor(u), Path(u.nodes, u.node)));
    } else {
      EntryOf(key, s.depth, d);
      EmitMember(key, d, s.depth, Accessor(s), Path(s.nodes, s.node));
    }
  }

  lemma EmitMember(key: Key, d: Decl, depth: nat, accessor: seq<string>, types: seq<TypeName>)
    requires d.Member?
    ensures Emit(key, [d], depth, accessor, types) == [Scalar(FormOf(Sliced(FieldOf(key, depth, d))), d.name, accessor)]
  {
    assert [d][1..] == [];
    assert Emit(key, [d][1..], depth, accessor, types) == [];
  }
}
