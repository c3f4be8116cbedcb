/** For every schema: the loop of message/protobuf.go on its flattened list rebuilds the schema and writes its builders. */
module SchemaTheorem {
  import opened Collections
  import opened Schema
  import opened SchemaRoundTrip
  import opened SchemaTree
  import opened SchemaPanics

  /** Between two messages, with no repeated struct left open. */
  predicate Ready(s: State) {
    !s.panicked && Invariant(s) && !(s.prev.Some? && s.doSlice)
  }

  predicate EndsPlain(ds: seq<Decl>) {
    ds != [] && !(ds[|ds|-1].Struct? && ds[|ds|-1].repeated)
  }

  /** Members the loop can handle: repeated structs only at the top level, and not last. */
  predicate Proper(m: Message) {
    WellFormed(m.members) && TopSlices(m.members) && EndsPlain(m.members)
  }

  predicate ProperSchema(prev: Option<Key>, ms: seq<Message>)
    decreases ms
  {
    ms == [] || (prev != Some(ms[0].key) && Proper(ms[0]) && ProperSchema(Some(ms[0].key), ms[1..]))
  }

  function EmitMessage(m: Message): seq<Token> {
    [MessageOpen(TypeOf(m.key))] + Emit(m.key, m.members, 0, [], [TypeOf(m.key)]) + [MessageClose]
  }

  function EmitAll(ms: seq<Message>): seq<Token> {
    if ms == [] then [] else EmitMessage(ms[0]) + EmitAll(ms[1..])
  }

  function MessageTree(m: Message): Tree {
    Tree(TypeOf(m.key), FieldsOf(m.key, 0, m.members), ChildrenOf(m.key, 0, m.members, map[]))
  }

  function SchemaTrees(ms: seq<Message>, above: map<TypeName, Tree>): map<TypeName, Tree> {
    if ms == [] then above else SchemaTrees(ms[1..], above[TypeOf(ms[0].key) := MessageTree(ms[0])])
  }

  predicate HasTrees(s: State) {
    ValidNodes(s.nodes) && forall t :: t in s.tree ==> s.tree[t] < |s.nodes|
  }

  ghost function Trees(s: State): map<TypeName, Tree>
    requires HasTrees(s)
  {
    map t | t in s.tree :: Built(s.nodes, s.tree[t])
  }

  // ---------------------------------------------------------------- one message

  lemma {:induction false} PopToKeeps(s: State, d: nat)
    requires InMessage(s)
    ensures PopTo(s, d).nodes == s.nodes && PopTo(s, d).tree == s.tree
    ensures !s.doSlice ==> !PopTo(s, d).doSlice
    decreases s.depth
  {
    if s.depth > d {
      PopToKeeps(PopOne(s), d);
    }
  }

  lemma {:induction false} PlainPops(s: State)
    requires InMessage(s) && !s.doSlice
    ensures PopTo(s, 0).out == s.out + Repeat(s.depth)
    decreases s.depth
  {
    if s.depth > 0 {
      PlainPops(PopOne(s));
      assert [BuildClose] + Repeat(s.depth - 1) == Repeat(s.depth);
      assert s.out + [BuildClose] + Repeat(s.depth - 1) == s.out + ([BuildClose] + Repeat(s.depth - 1));
    }
  }

  lemma {:induction false} StaysPlain(s: State, key: Key, depth: nat, ds: seq<Decl>)
    requires Calm(s) && s.prev == Some(key) && s.depth >= depth && !s.doSlice && WellFormed(ds) && NoSlices(ds)
    ensures !Steps(s, Flatten(key, depth, ds)).doSlice
    decreases ds
  {
    if ds != [] {
      var u := Step(s, FieldOf(key, depth, ds[0]));
      EntryStep(s, key, depth, ds[0]);
      EntryOf(key, depth, ds[0]);
      PopToKeeps(s, depth);
      FlattenFirst(s, key, depth, ds);
      if ds[0].Struct? {
        StaysPlain(u, key, depth + 1, ds[0].members);
        LoopDescends(u, key, depth + 1, ds[0].members);
        StaysPlain(Steps(u, Flatten(key, depth + 1, ds[0].members)), key, depth, ds[1..]);
      } else {
        StaysPlain(u, key, depth, ds[1..]);
      }
    }
  }

  lemma EntryPlain(s: State, key: Key, d: Decl)
    requires Calm(s) && s.prev == Some(key) && WellFormed([d])
    ensures var u := Step(s, FieldOf(key, 0, d));
            && Calm(u) && u.prev == Some(key) && u.depth == (if d.Struct? then 1 else 0)
            && u.doSlice == (d.Struct? && d.repeated)
  {
    EntryStep(s, key, 0, d);
    EntryOf(key, 0, d);
    PopToCalm(s, 0);
  }

  /** The state after the entries of one member. */
  function OneEntry(s: State, key: Key, depth: nat, d: Decl): (r: State)
    requires Invariant(s)
    ensures Invariant(r)
  {
    var u := Step(s, FieldOf(key, depth, d));
    if d.Struct? then Steps(u, Flatten(key, depth + 1, d.members)) else u
  }

  /** Coming back to the top level has closed any repeated struct before the member. */
  lemma OneEntryPlain(s: State, key: Key, d: Decl)
    requires Calm(s) && s.prev == Some(key) && WellFormed([d]) && (d.Struct? ==> WellFormed(d.members) && NoSlices(d.members))
    ensures var v := OneEntry(s, key, 0, d);
            Calm(v) && v.prev == Some(key) && (!(d.Struct? && d.repeated) ==> !v.doSlice)
  {
    EntryPlain(s, key, d);
    var u := Step(s, FieldOf(key, 0, d));
    if d.Struct? {
      LoopDescends(u, key, 1, d.members);
      if !d.repeated {
        StaysPlain(u, key, 1, d.members);
      }
    }
  }

  lemma FirstEntry(s: State, key: Key, depth: nat, ds: seq<Decl>)
    requires Invariant(s) && ds != []
    ensures Steps(s, Flatten(key, depth, ds)) == Steps(OneEntry(s, key, depth, ds[0]), Flatten(key, depth, ds[1..]))
  {
    FlattenFirst(s, key, depth, ds);
  }

  lemma NothingMore(s: State, key: Key)
    requires Invariant(s)
    ensures Steps(s, Flatten(key, 0, [])) == s
  {
  }

  lemma FirstProper(ds: seq<Decl>)
    requires WellFormed(ds) && TopSlices(ds) && ds != []
    ensures WellFormed([ds[0]]) && WellFormed(ds[1..]) && TopSlices(ds[1..])
    ensures ds[0].Struct? ==> WellFormed(ds[0].members) && NoSlices(ds[0].members)
  {
    assert [ds[0]][1..] == [];
  }

  lemma {:induction false} EndsPlainly(s: State, key: Key, ds: seq<Decl>)
    requires Calm(s) && s.prev == Some(key) && WellFormed(ds) && TopSlices(ds) && EndsPlain(ds)
    ensures !Steps(s, Flatten(key, 0, ds)).doSlice
    decreases ds
  {
    FirstProper(ds);
    FirstEntry(s, key, 0, ds);
    OneEntryPlain(s, key, ds[0]);
    var v := OneEntry(s, key, 0, ds[0]);
    if |ds| > 1 {
      EndsPlainly(v, key, ds[1..]);
    } else {
      assert ds[1..] == [];
      NothingMore(v, key);
    }
  }

  lemma {:induction false} KeysOf(key: Key, depth: nat, ds: seq<Decl>)
    ensures forall f :: f in Flatten(key, depth, ds) ==> f.key == key
    decreases ds
  {
    if ds != [] {
      if ds[0].Struct? {
        KeysOf(key, depth + 1, ds[0].members);
      }
      KeysOf(key, depth, ds[1..]);
    }
  }

  lemma FirstKey(key: Key, ds: seq<Decl>)
    requires ds != []
    ensures Flatten(key, 0, ds) != [] && forall f :: f in Flatten(key, 0, ds) ==> f.key == key
  {
    KeysOf(key, 0, ds);
  }

  /** The first field of a message starts it. */
  lemma Starts(s: State, fs: seq<Field>, key: Key)
    requires Ready(s) && fs != [] && fs[0].key == key && s.prev != Some(key)
    ensures Steps(s, fs) == Steps(StartMessage(s, key), fs)
    ensures Calm(StartMessage(s, key)) && !StartMessage(s, key).doSlice
  {
    assert Step(s, fs[0]) == Step(StartMessage(s, key), fs[0]);
  }

  /** The loop on a message that ends plainly, its builders closed, writes what the recursive writer writes. */
  lemma BodyText(s0: State, key: Key, ds: seq<Decl>, r: State)
    requires Calm(s0) && s0.depth == 0 && s0.prev == Some(key) && !s0.doSlice && s0.qualifiers == []
    requires WellFormed(ds) && TopSlices(ds) && EndsPlain(ds)
    requires r == Steps(s0, Flatten(key, 0, ds))
    ensures Calm(r) && r.prev == Some(key) && !r.doSlice
    ensures r.out + Repeat(r.depth) == s0.out + Emit(key, ds, 0, [], Path(s0.nodes, s0.node))
  {
    LoopDescends(s0, key, 0, ds);
    EndsPlainly(s0, key, ds);
    PlainPops(r);
    AfterText(s0, key, ds);
    assert PopTo(s0, 0) == s0;
  }

  lemma MessageText(s: State, m: Message, r: State)
    requires Ready(s) && Proper(m) && s.prev != Some(m.key)
    requires r == Steps(s, Flatten(m.key, 0, m.members))
    ensures Ready(r) && r.prev == Some(m.key)
    ensures Output(r) == Output(s) + EmitMessage(m)
  {
    FirstKey(m.key, m.members);
    Starts(s, Flatten(m.key, 0, m.members), m.key);
    var s0 := StartMessage(s, m.key);
    BodyText(s0, m.key, m.members, r);
    assert Path(s0.nodes, s0.node) == [TypeOf(m.key)];
    Enclose(Output(s), MessageOpen(TypeOf(m.key)), Emit(m.key, m.members, 0, [], [TypeOf(m.key)]), [MessageClose]);
  }

  lemma MessageDescent(s: State, key: Key, ds: seq<Decl>, s0: State)
    requires Invariant(s) && !s.panicked && Calm(s0) && s0 == StartMessage(s, key).(doSlice := false)
    ensures var a := After(s0, key, ds);
            && |s.nodes| < |a.nodes|
            && (forall j :: 0 <= j < |s.nodes| ==> a.nodes[j] == s.nodes[j])
            && a.tree == s.tree[TypeOf(key) := |s.nodes|]
            && Built(a.nodes, |s.nodes|) == MessageTree(Message(key, ds))
  {
    var n := |s.nodes|;
    AfterGrows(s0, key, ds);
    AfterTree(s0, key, ds);
    assert s0.nodes[n] == Node(TypeOf(key), None, map[], []);
    assert Built(s0.nodes, n).children == map[];
  }

  /** The nodes of a message all come after the nodes made before it, whether or not a repeated struct was left open. */
  lemma MessageNodes(s: State, m: Message, r: State)
    requires Invariant(s) && s.prev != Some(m.key)
    requires m.members != [] && WellFormed(m.members)
    requires r == Steps(s, Flatten(m.key, 0, m.members)) && !r.panicked
    ensures ValidNodes(r.nodes) && |s.nodes| < |r.nodes| && r.prev == Some(m.key)
    ensures forall j :: 0 <= j < |s.nodes| ==> r.nodes[j] == s.nodes[j]
    ensures r.tree == s.tree[TypeOf(m.key) := |s.nodes|]
    ensures Built(r.nodes, |s.nodes|) == MessageTree(m)
  {
    var fs := Flatten(m.key, 0, m.members);
    FirstKey(m.key, m.members);
    StartsAnyhow(s, fs, m.key);
    var s0 := StartMessage(s, m.key).(doSlice := false);
    LoopDescends(s0, m.key, 0, m.members);
    ShapeSteps(StartMessage(s, m.key), s0, fs);
    PopToKeeps(Steps(s0, fs), 0);
    MessageDescent(s, m.key, m.members, s0);
  }

  /** The same but for what is written and whether a repeated struct is open. */
  predicate SameShape(s: State, t: State) {
    s == t.(doSlice := s.doSlice, out := s.out)
  }

  lemma {:induction false} ShapePops(s: State, t: State, d: nat)
    requires InMessage(s) && InMessage(t) && SameShape(s, t)
    ensures SameShape(PopTo(s, d), PopTo(t, d))
    decreases s.depth
  {
    if s.depth > d {
      ShapePops(PopOne(s), PopOne(t), d);
    }
  }

  lemma ShapeStep(s: State, t: State, f: Field)
    requires InMessage(s) && InMessage(t) && SameShape(s, t) && s.prev == Some(f.key)
    ensures !Step(s, f).panicked && !Step(t, f).panicked ==> SameShape(Step(s, f), Step(t, f))
  {
    if Indent(CutName(f.name)).Some? {
      ShapePops(s, t, Indent(CutName(f.name)).value / 2);
    }
  }

  lemma {:induction false} ShapeSteps(s: State, t: State, fs: seq<Field>)
    requires InMessage(s) && InMessage(t) && SameShape(s, t) && !s.panicked
    requires forall f :: f in fs ==> s.prev == Some(f.key)
    requires !Steps(s, fs).panicked && !Steps(t, fs).panicked
    ensures SameShape(Steps(s, fs), Steps(t, fs))
    decreases fs
  {
    if fs != [] {
      ShapeStep(s, t, fs[0]);
      ShapeSteps(Step(s, fs[0]), Step(t, fs[0]), fs[1..]);
    }
  }

  lemma StartsAnyhow(s: State, fs: seq<Field>, key: Key)
    requires Invariant(s) && fs != [] && fs[0].key == key && s.prev != Some(key) && !Steps(s, fs).panicked
    ensures !s.panicked && Steps(s, fs) == Steps(StartMessage(s, key), fs)
    ensures Calm(StartMessage(s, key).(doSlice := false))
  {
    assert Step(s, fs[0]) == Step(StartMessage(s, key), fs[0]);
  }

  lemma TreesExtended(s: State, r: State, t: TypeName, tree: Tree)
    requires HasTrees(s) && ValidNodes(r.nodes) && |s.nodes| < |r.nodes|
    requires forall j :: 0 <= j < |s.nodes| ==> r.nodes[j] == s.nodes[j]
    requires r.tree == s.tree[t := |s.nodes|] && Built(r.nodes, |s.nodes|) == tree
    ensures HasTrees(r) && Trees(r) == Trees(s)[t := tree]
  {
    forall u | u in s.tree
      ensures Built(r.nodes, s.tree[u]) == Built(s.nodes, s.tree[u])
    {
      BuiltStable(s.nodes, r.nodes, s.tree[u]);
    }
  }

  // ---------------------------------------------------------------- the theorems

  lemma {:induction false} MessagesBuild(s: State, ms: seq<Message>)
    requires Invariant(s) && HasTrees(s) && WellFormedSchema(s.prev, ms)
    requires !Steps(s, FlattenAll(ms)).panicked
    ensures var r := Steps(s, FlattenAll(ms));
            HasTrees(r) && Trees(r) == SchemaTrees(ms, Trees(s))
    decreases ms
  {
    if ms != [] {
      var fs, rest := Flatten(ms[0].key, 0, ms[0].members), FlattenAll(ms[1..]);
      StepsConcat(s, fs, rest);
      var m := Steps(s, fs);
      assert !m.panicked;
      MessageNodes(s, ms[0], m);
      TreesExtended(s, m, TypeOf(ms[0].key), MessageTree(ms[0]));
      MessagesBuild(m, ms[1..]);
    }
  }

  /** Flattening any well-formed schema and running the loop rebuilds the tree of its messages, but for the schemas
      on which it panics: a message that starts with a plain member after one left open. */
  lemma SchemaRoundTrips(ms: seq<Message>)
    requires WellFormedSchema(None, ms)
    ensures var r := Steps(START, FlattenAll(ms));
            if SchemaFails(false, ms) then r.panicked else !r.panicked && HasTrees(r) && Trees(r) == SchemaTrees(ms, map[])
  {
    SchemaPanicsIff(ms);
    if !SchemaFails(false, ms) {
      MessagesBuild(START, ms);
      assert Trees(START) == map[];
    }
  }

  lemma {:induction false} MessagesText(s: State, ms: seq<Message>)
    requires Ready(s) && ProperSchema(s.prev, ms)
    ensures var r := Steps(s, FlattenAll(ms));
            Ready(r) && Output(r) == Output(s) + EmitAll(ms)
    decreases ms
  {
    if ms != [] {
      var fs, rest := Flatten(ms[0].key, 0, ms[0].members), FlattenAll(ms[1..]);
      StepsConcat(s, fs, rest);
      var m := Steps(s, fs);
      MessageText(s, ms[0], m);
      MessagesText(m, ms[1..]);
      Join(Output(s), EmitMessage(ms[0]), EmitAll(ms[1..]));
    }
  }

  /** With repeated structs only at top level and never last, the loop does not panic and writes, for every
      message, builders nested as its structs are, each value read from where the schema has it. */
  lemma SchemaBuilders(ms: seq<Message>)
    requires ProperSchema(None, ms)
    ensures var r := Steps(START, FlattenAll(ms));
            !r.panicked && Output(r) == EmitAll(ms)
  {
    MessagesText(START, ms);
  }
}
