/** Whether the message tree of message/protobuf.go holds all of the schema it was compiled from. */
module SchemaKept {
  import opened Collections
  import opened Schema
  import opened SchemaRoundTrip
  import opened SchemaTree
  import opened SchemaPanics
  import opened SchemaTheorem

  // ---------------------------------------------------------------- a tree and its declarations

  const BLANK := Key("", "")

  /** The fields without the key they were listed under, which a message does not show. */
  function Unkeyed(fs: seq<Field>): (r: seq<Field>)
    ensures |r| == |fs|
  {
    seq(|fs|, i requires 0 <= i < |fs| => fs[i].(key := BLANK))
  }

  function StructTypes(ds: seq<Decl>): set<string> {
    set i | 0 <= i < |ds| && ds[i].Struct? :: ds[i].typ
  }

  /** The tree shows these members and no others, at every level: each member is a field, and below it each struct is a
      child, which shows the struct's members. */
  ghost predicate Represents(tree: Tree, depth: nat, ds: seq<Decl>)
    decreases ds
  {
    && Unkeyed(tree.fields) == FieldsOf(BLANK, depth, ds)
    && tree.children.Keys == StructTypes(ds)
    && forall i | 0 <= i < |ds| && ds[i].Struct? ::
         ds[i].typ in tree.children && Represents(tree.children[ds[i].typ], depth + 1, ds[i].members)
  }

  /** The members are the same: they read the same, and structs of one type name agree in turn, at every level. */
  ghost predicate Agree(depth: nat, a: seq<Decl>, b: seq<Decl>)
    decreases a
  {
    && FieldsOf(BLANK, depth, a) == FieldsOf(BLANK, depth, b)
    && StructTypes(a) == StructTypes(b)
    && forall i, j | 0 <= i < |a| && 0 <= j < |b| && a[i].Struct? && b[j].Struct? && a[i].typ == b[j].typ ::
         Agree(depth + 1, a[i].members, b[j].members)
  }

  /** The tree that the compiler builds for members. */
  function Body(message: TypeName, key: Key, depth: nat, ds: seq<Decl>): Tree {
    Tree(message, FieldsOf(key, depth, ds), ChildrenOf(key, depth, ds, map[]))
  }

  lemma {:induction false} UnkeyedFields(key: Key, depth: nat, ds: seq<Decl>)
    ensures Unkeyed(FieldsOf(key, depth, ds)) == FieldsOf(BLANK, depth, ds)
  {
    if ds != [] {
      UnkeyedFields(key, depth, ds[1..]);
      var f := Sliced(FieldOf(key, depth, ds[0]));
      assert f.(key := BLANK) == Sliced(FieldOf(BLANK, depth, ds[0]));
      assert Unkeyed([f] + FieldsOf(key, depth, ds[1..])) == [f.(key := BLANK)] + Unkeyed(FieldsOf(key, depth, ds[1..]));
    }
  }

  /** The child of a type name is built from the last struct of that type. */
  lemma ChildOf(key: Key, depth: nat, ds: seq<Decl>, typ: string) returns (i: nat)
    requires typ in StructTypes(ds)
    ensures i < |ds| && ds[i].Struct? && ds[i].typ == typ && typ in ChildrenOf(key, depth, ds, map[])
    ensures forall j :: i < j < |ds| ==> !(ds[j].Struct? && ds[j].typ == typ)
    ensures ChildrenOf(key, depth, ds, map[])[typ] == Body(Nested(typ), key, depth + 1, ds[i].members)
  {
    var last := LastOfType(key, depth, ds, map[], typ);
    i := last.value;
  }

  lemma ChildTypes(key: Key, depth: nat, ds: seq<Decl>)
    ensures ChildrenOf(key, depth, ds, map[]).Keys == StructTypes(ds)
  {
    forall typ ensures typ in ChildrenOf(key, depth, ds, map[]) <==> typ in StructTypes(ds) {
      var last := LastOfType(key, depth, ds, map[], typ);
      if last.Some? {
        assert ds[last.value].typ in StructTypes(ds);
      }
    }
  }

  /** The tree built from some members represents any others that agree with them. */
  lemma {:induction false} AgreeRepresents(message: TypeName, key: Key, depth: nat, a: seq<Decl>, b: seq<Decl>)
    requires Agree(depth, a, b)
    ensures Represents(Body(message, key, depth, a), depth, b)
    decreases a
  {
    var tree := Body(message, key, depth, a);
    UnkeyedFields(key, depth, a);
    ChildTypes(key, depth, a);
    forall j | 0 <= j < |b| && b[j].Struct?
      ensures b[j].typ in tree.children && Represents(tree.children[b[j].typ], depth + 1, b[j].members)
    {
      assert b[j].typ in StructTypes(b);
      var i := ChildOf(key, depth, a, b[j].typ);
      AgreeRepresents(Nested(b[j].typ), key, depth + 1, a[i].members, b[j].members);
    }
  }

  /** What one tree represents agrees. */
  lemma {:induction false} BothRepresented(tree: Tree, depth: nat, a: seq<Decl>, b: seq<Decl>)
    requires Represents(tree, depth, a) && Represents(tree, depth, b)
    ensures Agree(depth, a, b)
    decreases a
  {
    forall i, j | 0 <= i < |a| && 0 <= j < |b| && a[i].Struct? && b[j].Struct? && a[i].typ == b[j].typ
      ensures Agree(depth + 1, a[i].members, b[j].members)
    {
      BothRepresented(tree.children[a[i].typ], depth + 1, a[i].members, b[j].members);
    }
  }

  /** The tree built from a message's members holds all of them, at every level, if and only if, at every level, structs
      of one type name under one parent have the same members. */
  lemma TreeHolds(message: TypeName, key: Key, depth: nat, ds: seq<Decl>)
    ensures Represents(Body(message, key, depth, ds), depth, ds) <==> Agree(depth, ds, ds)
  {
    if Represents(Body(message, key, depth, ds), depth, ds) {
      BothRepresented(Body(message, key, depth, ds), depth, ds, ds);
    }
    if Agree(depth, ds, ds) {
      AgreeRepresents(message, key, depth, ds, ds);
    }
  }

  // ---------------------------------------------------------------- schemas

  /** The tree of a message type is that of the last message of the type. */
  lemma {:induction false} LastMessage(ms: seq<Message>, above: map<TypeName, Tree>, t: TypeName) returns (last: Option<nat>)
    ensures last.None? ==> (forall i :: 0 <= i < |ms| ==> TypeOf(ms[i].key) != t)
    ensures last.None? ==> (t in SchemaTrees(ms, above) <==> t in above)
    ensures last.None? && t in above ==> SchemaTrees(ms, above)[t] == above[t]
    ensures last.Some? ==> last.value < |ms| && TypeOf(ms[last.value].key) == t
    ensures last.Some? ==> (forall i :: last.value < i < |ms| ==> TypeOf(ms[i].key) != t)
    ensures last.Some? ==> t in SchemaTrees(ms, above) && SchemaTrees(ms, above)[t] == MessageTree(ms[last.value])
    decreases ms
  {
    if ms == [] {
      last := None;
    } else {
      var later := LastMessage(ms[1..], above[TypeOf(ms[0].key) := MessageTree(ms[0])], t);
      last := if later.Some? then Some(later.value + 1) else if TypeOf(ms[0].key) == t then Some(0) else None;
      forall i | (if last.Some? then last.value < i else 0 <= i) && i < |ms| ensures TypeOf(ms[i].key) != t {
        assert i > 0 ==> ms[i] == ms[1..][i-1];
      }
    }
  }

  /** The message's members are all in the tree of its type. */
  ghost predicate Holds(trees: map<TypeName, Tree>, m: Message) {
    TypeOf(m.key) in trees && Represents(trees[TypeOf(m.key)], 0, m.members)
  }

  ghost predicate HoldsAll(trees: map<TypeName, Tree>, ms: seq<Message>) {
    forall i :: 0 <= i < |ms| ==> Holds(trees, ms[i])
  }

  /** Messages of one type have the same members. */
  ghost predicate AllAgree(ms: seq<Message>) {
    forall i, j :: 0 <= i < |ms| && 0 <= j < |ms| && TypeOf(ms[i].key) == TypeOf(ms[j].key) ==> Agree(0, ms[i].members, ms[j].members)
  }

  lemma TreesHold(ms: seq<Message>)
    ensures HoldsAll(SchemaTrees(ms, map[]), ms) <==> AllAgree(ms)
  {
    var trees := SchemaTrees(ms, map[]);
    if HoldsAll(trees, ms) {
      forall i, j | 0 <= i < |ms| && 0 <= j < |ms| && TypeOf(ms[i].key) == TypeOf(ms[j].key)
        ensures Agree(0, ms[i].members, ms[j].members)
      {
        assert Holds(trees, ms[i]) && Holds(trees, ms[j]);
        BothRepresented(trees[TypeOf(ms[i].key)], 0, ms[i].members, ms[j].members);
      }
    }
    if AllAgree(ms) {
      forall j | 0 <= j < |ms| ensures Holds(trees, ms[j]) {
        var last := LastMessage(ms, map[], TypeOf(ms[j].key));
        var i := last.value;
        AgreeRepresents(TypeOf(ms[i].key), ms[i].key, 0, ms[i].members, ms[j].members);
      }
    }
  }

  /** For every well-formed schema on which the loop does not panic: flattening it and running the loop keeps all of its
      messages, with all their members at every level, if and only if messages of one type, and structs of one type name
      under one parent, have the same members. */
  lemma SchemaIsKept(ms: seq<Message>)
    requires WellFormedSchema(None, ms) && !SchemaFails(false, ms)
    ensures var r := Steps(START, FlattenAll(ms)); !r.panicked && HasTrees(r) && (HoldsAll(Trees(r), ms) <==> AllAgree(ms))
  {
    SchemaRoundTrips(ms);
    TreesHold(ms);
  }

  // ---------------------------------------------------------------- two observations of one package

  const FORK := Message(Key("process", "fork|exec"), [Member("Name", false, "string", "string")])
  const STATS := Message(Key("process", "taskstats"), [Member("Uid", false, "int", "int")])

  /** Two observations of one package, with different events: both are messages of one type, and one of them is lost. */
  lemma LostMessage(ms: seq<Message>)
    requires ms == [FORK, STATS]
    ensures WellFormedSchema(None, ms) && !SchemaFails(false, ms) && !Steps(START, FlattenAll(ms)).panicked
    ensures HasTrees(Steps(START, FlattenAll(ms))) && !HoldsAll(Trees(Steps(START, FlattenAll(ms))), ms)
  {
    assert ms[1..] == [STATS] && [STATS][1..] == [];
    assert FORK.members[1..] == [] && STATS.members[1..] == [];
    assert WellNamed("Name") && WellNamed("Uid");
    assert "fork|exec"[0] != "taskstats"[0];
    assert WellFormedSchema(Some(FORK.key), [STATS]);
    assert !LeftOpen(false, FORK.members) && !SchemaFails(false, [STATS]);
    assert TypeOf(ms[0].key) == TypeOf(ms[1].key);
    DifferentFields(0, FORK.members[0], STATS.members[0]);
    SchemaIsKept(ms);
  }

  lemma DifferentFields(depth: nat, x: Decl, y: Decl)
    requires x.Member? && y.Member? && !x.repeated && !y.repeated && x.name != "" && y.name != "" && x.name[0] != y.name[0]
    ensures !Agree(depth, [x], [y])
  {
    var a, b := FieldOf(BLANK, depth, x).name, FieldOf(BLANK, depth, y).name;
    assert a[2 * depth] == x.name[0] && b[2 * depth] == y.name[0];
    assert FieldsOf(BLANK, depth, [x])[0].name == a && FieldsOf(BLANK, depth, [y])[0].name == b;
  }
}
