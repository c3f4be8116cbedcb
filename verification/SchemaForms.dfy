/** How message/protobuf.go declares and copies each member: as its declared kind and type ask, and whether it is repeated. */
module SchemaForms {
  import opened Collections
  import opened Schema
  import opened SchemaRoundTrip
  import opened SchemaTree
  import opened SchemaPanics
  import opened SchemaTheorem
  import opened SchemaKept

  // ---------------------------------------------------------------- the entries of the tree

  /** The entry of a member: a repeated one is declared as a slice, any other as it is, both with its own type. */
  predicate Declares(f: Field, d: Decl) {
    && (d.repeated ==> f.kind == "slice")
    && (!d.repeated && d.Struct? ==> f.kind == "struct")
    && (!d.repeated && d.Member? ==> f.kind == d.kind)
    && f.typ == d.typ
  }

  /** The tree of some members declares each of them, in order, and every nested type the members of its last struct. */
  ghost predicate Shows(tree: Tree, ds: seq<Decl>)
    decreases ds
  {
    && |tree.fields| == |ds|
    && (forall i :: 0 <= i < |ds| ==> Declares(tree.fields[i], ds[i]))
    && tree.children.Keys == StructTypes(ds)
    && forall typ :: typ in tree.children ==>
         exists i :: 0 <= i < |ds| && LastStruct(ds, i, typ) && Shows(tree.children[typ], ds[i].members)
  }

  predicate LastStruct(ds: seq<Decl>, i: nat, typ: string)
    requires i < |ds|
  {
    ds[i].Struct? && ds[i].typ == typ && forall j :: i < j < |ds| && ds[j].Struct? ==> ds[j].typ != typ
  }

  lemma {:induction false} FieldsDeclare(key: Key, depth: nat, ds: seq<Decl>)
    requires WellFormed(ds)
    ensures |FieldsOf(key, depth, ds)| == |ds|
    ensures forall i :: 0 <= i < |ds| ==> Declares(FieldsOf(key, depth, ds)[i], ds[i])
  {
    if ds != [] {
      FieldsDeclare(key, depth, ds[1..]);
      EntryOf(key, depth, ds[0]);
    }
  }

  lemma {:induction false} WellFormedAt(ds: seq<Decl>, i: nat)
    requires WellFormed(ds) && i < |ds|
    ensures ds[i].Struct? ==> WellFormed(ds[i].members)
  {
    if i > 0 {
      WellFormedAt(ds[1..], i - 1);
    }
  }

  lemma {:induction false} BodyShows(message: TypeName, key: Key, depth: nat, ds: seq<Decl>)
    requires WellFormed(ds)
    ensures Shows(Body(message, key, depth, ds), ds)
    decreases ds
  {
    var tree := Body(message, key, depth, ds);
    FieldsDeclare(key, depth, ds);
    ChildTypes(key, depth, ds);
    forall typ | typ in tree.children
      ensures exists i :: 0 <= i < |ds| && LastStruct(ds, i, typ) && Shows(tree.children[typ], ds[i].members)
    {
      var i := ChildOf(key, depth, ds, typ);
      assert LastStruct(ds, i, typ);
      WellFormedAt(ds, i);
      BodyShows(Nested(typ), key, depth + 1, ds[i].members);
    }
  }

  lemma {:induction false} SchemaAt(prev: Option<Key>, ms: seq<Message>, i: nat)
    requires WellFormedSchema(prev, ms) && i < |ms|
    ensures WellFormed(ms[i].members)
    decreases i
  {
    if i > 0 {
      SchemaAt(Some(ms[0].key), ms[1..], i - 1);
    }
  }

  /** A message of measurements or of observations, named by its package. */
  predicate Titled(m: Message, t: TypeName) {
    t == Root(m.key.source, if m.key.events == "measure" then "Measurement" else "Observation")
  }

  /** The tree shows the members of the last message of this type. */
  ghost predicate ShowsLast(tree: Tree, ms: seq<Message>, t: TypeName) {
    exists i :: 0 <= i < |ms| && Titled(ms[i], t) && Shows(tree, ms[i].members) && forall j :: i < j < |ms| ==> !Titled(ms[j], t)
  }

  /** For every well-formed schema on which the loop does not panic, the trees it builds are those of its message types,
      and each declares, at every level, the members of the last message of the type: slices for those repeated, and for the
      others their own kinds. */
  lemma {:induction false} SchemaShows(ms: seq<Message>)
    requires WellFormedSchema(None, ms) && !SchemaFails(false, ms)
    ensures var r := Steps(START, FlattenAll(ms));
            && !r.panicked && HasTrees(r)
            && (forall t :: t in Trees(r) <==> exists i :: 0 <= i < |ms| && Titled(ms[i], t))
            && forall t :: t in Trees(r) ==> ShowsLast(Trees(r)[t], ms, t)
  {
    SchemaRoundTrips(ms);
    var trees := SchemaTrees(ms, map[]);
    forall t
      ensures t in trees <==> exists i :: 0 <= i < |ms| && Titled(ms[i], t)
      ensures t in trees ==> ShowsLast(trees[t], ms, t)
    {
      TypeShown(ms, None, t);
    }
  }

  lemma {:induction false} TypeShown(ms: seq<Message>, prev: Option<Key>, t: TypeName)
    requires WellFormedSchema(prev, ms)
    ensures t in SchemaTrees(ms, map[]) <==> exists i :: 0 <= i < |ms| && Titled(ms[i], t)
    ensures t in SchemaTrees(ms, map[]) ==> ShowsLast(SchemaTrees(ms, map[])[t], ms, t)
  {
    var last := LastMessage(ms, map[], t);
    if last.Some? {
      var m := ms[last.value];
      SchemaAt(prev, ms, last.value);
      BodyShows(t, m.key, 0, m.members);
      assert Titled(m, t) && forall j :: last.value < j < |ms| ==> TypeOf(ms[j].key) != t;
    }
  }

  // ---------------------------------------------------------------- the copies of the plain members

  /** The plain members, in the order in which they are written. */
  function Plain(ds: seq<Decl>): seq<Decl>
    decreases ds
  {
    if ds == [] then [] else (if ds[0].Struct? then Plain(ds[0].members) else [ds[0]]) + Plain(ds[1..])
  }

  function PlainAll(ms: seq<Message>): seq<Decl> {
    if ms == [] then [] else Plain(ms[0].members) + PlainAll(ms[1..])
  }

  function Scalars(ts: seq<Token>): seq<Token> {
    if ts == [] then [] else Scalars(ts[..|ts|-1]) + if ts[|ts|-1].Scalar? then [ts[|ts|-1]] else []
  }

  /** The text copies the member as it must be: a slice is taken over, a time and a duration converted, an integer widened,
      a string of a type of its own cast, and anything else referred to. */
  predicate Copies(t: Token, d: Decl) {
    && d.Member? && t.Scalar? && t.name == d.name
    && match t.form
       case Raw => d.repeated || d.kind == "slice"
       case Timestamp => !d.repeated && d.kind != "slice" && d.typ == "Time"
       case Duration => !d.repeated && d.kind != "slice" && d.typ == "Duration"
       case Integer => !d.repeated && d.kind == "int" && d.typ !in {"Time", "Duration"}
       case StringCast => !d.repeated && d.kind == "string" && d.typ !in {"Time", "Duration", "string"}
       case Reference =>
         && !d.repeated && d.typ !in {"Time", "Duration"} && d.kind !in {"slice", "int"}
         && (d.kind == "string" ==> d.typ == "string")
  }

  ghost predicate CopiesAll(ts: seq<Token>, ds: seq<Decl>) {
    |ts| == |ds| && forall i :: 0 <= i < |ds| ==> Copies(ts[i], ds[i])
  }

  lemma {:induction false} ScalarsConcat(a: seq<Token>, b: seq<Token>)
    ensures Scalars(a + b) == Scalars(a) + Scalars(b)
  {
    if b == [] {
      assert a + b == a;
    } else {
      assert (a + b)[..|a + b|-1] == a + b[..|b|-1];
      ScalarsConcat(a, b[..|b|-1]);
    }
  }

  lemma ScalarsMore(ts: seq<Token>, t: Token)
    ensures Scalars(ts + [t]) == Scalars(ts) + if t.Scalar? then [t] else []
  {
    assert (ts + [t])[..|ts|] == ts;
  }

  lemma {:induction false} NoScalars(ts: seq<Token>)
    requires forall i :: 0 <= i < |ts| ==> !ts[i].Scalar?
    ensures Scalars(ts) == []
  {
    if ts != [] {
      NoScalars(ts[..|ts|-1]);
    }
  }

  lemma OnlyClosers(out: seq<Token>, more: seq<Token>)
    requires forall i :: 0 <= i < |more| ==> !more[i].Scalar?
    ensures Scalars(out + more) == Scalars(out)
  {
    ScalarsConcat(out, more);
    NoScalars(more);
  }

  lemma {:induction false} PopScalars(s: State, d: nat)
    requires InMessage(s)
    ensures Scalars(PopTo(s, d).out) == Scalars(s.out)
    decreases s.depth
  {
    if s.depth > d {
      PopScalars(PopOne(s), d);
      OnlyClosers(s.out, if s.depth == 1 && s.doSlice then [BuildClose, SliceClose] else [BuildClose]);
    }
  }

  lemma StartScalars(s: State, key: Key)
    requires !s.panicked && Invariant(s)
    ensures Scalars(StartMessage(s, key).out) == Scalars(s.out)
  {
    OutputScalars(s);
    ScalarsMore(Output(s), MessageOpen(TypeOf(key)));
  }

  lemma OutputScalars(s: State)
    ensures Scalars(Output(s)) == Scalars(s.out)
  {
    OnlyClosers(s.out, Repeat(s.depth) + [MessageClose]);
    assert s.out + Repeat(s.depth) + [MessageClose] == s.out + (Repeat(s.depth) + [MessageClose]);
  }

  lemma EnterScalars(s: State, f: Field)
    requires InMessage(s)
    ensures Scalars(Enter(s, f).out) == Scalars(s.out)
  {
    var t := Enter(s, f).out[|s.out|];
    ScalarsMore(s.out, t);
  }

  lemma AssignScalars(s: State, key: Key, depth: nat, d: Decl) returns (t: Token)
    requires InMessage(s) && d.Member? && WellNamed(d.name) && !Assign(s, FieldOf(key, depth, d)).panicked
    ensures Scalars(Assign(s, FieldOf(key, depth, d)).out) == Scalars(s.out) + [t] && Copies(t, d)
  {
    EntryOf(key, depth, d);
    t := Assign(s, FieldOf(key, depth, d)).out[|s.out|];
    ScalarsMore(s.out, t);
  }

  /** The state once the field's message has been started and its level been reached. */
  function Reached(s: State, f: Field): (r: State)
    requires Invariant(s) && !s.panicked
    ensures InMessage(r)
    ensures Step(s, f) == if IsNested(f) then Enter(r, f) else Assign(r, f)
  {
    var s1 := if s.prev != Some(f.key) then StartMessage(s, f.key) else s;
    match Indent(CutName(f.name)) case Some(i) => PopTo(s1, i / 2) case None => s1
  }

  lemma ReachedScalars(s: State, f: Field)
    requires Invariant(s) && !s.panicked
    ensures Scalars(Reached(s, f).out) == Scalars(s.out)
  {
    StartScalars(s, f.key);
    if Indent(CutName(f.name)).Some? {
      PopScalars(if s.prev != Some(f.key) then StartMessage(s, f.key) else s, Indent(CutName(f.name)).value / 2);
    }
  }

  /** What the entry of one member adds. */
  lemma EntryScalars(s: State, key: Key, depth: nat, d: Decl) returns (ts: seq<Token>)
    requires Invariant(s) && WellFormed([d]) && !Step(s, FieldOf(key, depth, d)).panicked
    ensures Scalars(Step(s, FieldOf(key, depth, d)).out) == Scalars(s.out) + ts
    ensures CopiesAll(ts, if d.Struct? then [] else [d])
  {
    var f := FieldOf(key, depth, d);
    var r := Reached(s, f);
    ReachedScalars(s, f);
    NestedEntry(key, depth, d);
    if d.Struct? {
      EnterScalars(r, f);
      ts := [];
      assert Scalars(s.out) + ts == Scalars(s.out);
    } else {
      ts := MemberScalars(s, r, key, depth, d);
    }
  }

  lemma NestedEntry(key: Key, depth: nat, d: Decl)
    requires WellFormed([d])
    ensures IsNested(FieldOf(key, depth, d)) == d.Struct? && WellNamed(d.name)
  {
  }

  lemma MemberScalars(s: State, r: State, key: Key, depth: nat, d: Decl) returns (ts: seq<Token>)
    requires InMessage(r) && Scalars(r.out) == Scalars(s.out)
    requires d.Member? && WellNamed(d.name) && !Assign(r, FieldOf(key, depth, d)).panicked
    ensures Scalars(Assign(r, FieldOf(key, depth, d)).out) == Scalars(s.out) + ts && CopiesAll(ts, [d])
  {
    var t := AssignScalars(r, key, depth, d);
    ts := [t];
  }

  lemma CopiesConcat(a: seq<Token>, b: seq<Token>, ds: seq<Decl>, es: seq<Decl>)
    requires CopiesAll(a, ds) && CopiesAll(b, es)
    ensures CopiesAll(a + b, ds + es)
  {
  }

  lemma NotYetPanicked(s: State, fs: seq<Field>)
    requires Invariant(s) && !Steps(s, fs).panicked
    ensures !s.panicked
  {
  }

  /** From `s` to `r`, the text got copies of these members. */
  ghost predicate Wrote(s: State, r: State, ds: seq<Decl>) {
    exists ts :: WroteAs(s, r, ds, ts)
  }

  ghost predicate WroteAs(s: State, r: State, ds: seq<Decl>, ts: seq<Token>) {
    Scalars(r.out) == Scalars(s.out) + ts && CopiesAll(ts, ds)
  }

  lemma WroteNothing(s: State)
    ensures Wrote(s, s, [])
  {
    assert WroteAs(s, s, [], []);
  }

  lemma WroteTwice(s: State, m: State, r: State, ds: seq<Decl>, es: seq<Decl>)
    requires Wrote(s, m, ds) && Wrote(m, r, es)
    ensures Wrote(s, r, ds + es)
  {
    var a :| WroteAs(s, m, ds, a);
    var b :| WroteAs(m, r, es, b);
    CopiesConcat(a, b, ds, es);
    assert Scalars(s.out) + a + b == Scalars(s.out) + (a + b);
    assert WroteAs(s, r, ds + es, a + b);
  }

  lemma EntryWrote(s: State, key: Key, depth: nat, d: Decl)
    requires Invariant(s) && WellFormed([d]) && !Step(s, FieldOf(key, depth, d)).panicked
    ensures Wrote(s, Step(s, FieldOf(key, depth, d)), if d.Struct? then [] else [d])
  {
    var ts := EntryScalars(s, key, depth, d);
    assert WroteAs(s, Step(s, FieldOf(key, depth, d)), if d.Struct? then [] else [d], ts);
  }

  lemma FirstWell(ds: seq<Decl>)
    requires WellFormed(ds) && ds != []
    ensures WellFormed([ds[0]]) && WellFormed(ds[1..]) && (ds[0].Struct? ==> WellFormed(ds[0].members))
  {
    assert [ds[0]][1..] == [];
  }

  lemma {:induction false} FlattenWrote(s: State, key: Key, depth: nat, ds: seq<Decl>)
    requires Invariant(s) && WellFormed(ds) && !Steps(s, Flatten(key, depth, ds)).panicked
    ensures Wrote(s, Steps(s, Flatten(key, depth, ds)), Plain(ds))
    decreases ds
  {
    if ds == [] {
      WroteNothing(s);
    } else {
      var u, v := Step(s, FieldOf(key, depth, ds[0])), OneEntry(s, key, depth, ds[0]);
      FirstEntry(s, key, depth, ds);
      FirstWell(ds);
      NotYetPanicked(v, Flatten(key, depth, ds[1..]));
      NotYetEntered(s, key, depth, ds[0]);
      EntryWrote(s, key, depth, ds[0]);
      if ds[0].Struct? {
        FlattenWrote(u, key, depth + 1, ds[0].members);
        WroteTwice(s, u, v, [], Plain(ds[0].members));
        assert [] + Plain(ds[0].members) == Plain(ds[0].members);
      }
      FlattenWrote(v, key, depth, ds[1..]);
      WroteTwice(s, v, Steps(v, Flatten(key, depth, ds[1..])), if ds[0].Struct? then Plain(ds[0].members) else [ds[0]], Plain(ds[1..]));
    }
  }

  lemma NotYetEntered(s: State, key: Key, depth: nat, d: Decl)
    requires Invariant(s) && !OneEntry(s, key, depth, d).panicked
    ensures !Step(s, FieldOf(key, depth, d)).panicked
  {
  }

  lemma {:induction false} SchemaWrote(s: State, ms: seq<Message>)
    requires Invariant(s) && WellFormedSchema(s.prev, ms) && !Steps(s, FlattenAll(ms)).panicked
    ensures Wrote(s, Steps(s, FlattenAll(ms)), PlainAll(ms))
    decreases ms
  {
    if ms == [] {
      WroteNothing(s);
    } else {
      var fs, rest := Flatten(ms[0].key, 0, ms[0].members), FlattenAll(ms[1..]);
      var m := Steps(s, fs);
      StepsConcat(s, fs, rest);
      NotYetPanicked(m, rest);
      LastKey(s, ms[0]);
      FlattenWrote(s, ms[0].key, 0, ms[0].members);
      SchemaWrote(m, ms[1..]);
      WroteTwice(s, m, Steps(m, rest), Plain(ms[0].members), PlainAll(ms[1..]));
    }
  }

  lemma LastKey(s: State, m: Message)
    requires Invariant(s) && s.prev != Some(m.key) && m.members != [] && WellFormed(m.members)
    requires !Steps(s, Flatten(m.key, 0, m.members)).panicked
    ensures Steps(s, Flatten(m.key, 0, m.members)).prev == Some(m.key)
  {
    MessageNodes(s, m, Steps(s, Flatten(m.key, 0, m.members)));
  }

  /** For every well-formed schema on which the loop does not panic, the text assigns just the plain members, in order, and
      copies each as its declared kind and type, and whether it is repeated, ask for. */
  lemma MembersCopied(ms: seq<Message>)
    requires WellFormedSchema(None, ms) && !SchemaFails(false, ms)
    ensures var r := Steps(START, FlattenAll(ms)); !r.panicked && CopiesAll(Scalars(Output(r)), PlainAll(ms))
  {
    SchemaRoundTrips(ms);
    var r := Steps(START, FlattenAll(ms));
    SchemaWrote(START, ms);
    var ts :| WroteAs(START, r, PlainAll(ms), ts);
    OutputScalars(r);
    assert Scalars(START.out) == [] && [] + ts == ts;
  }

  // ---------------------------------------------------------------- maps

  lemma {:induction false} FindKeyAt(front: string, rest: string)
    requires forall c :: c in front ==> c != '['
    ensures FindKey(front + "[key]" + rest) == Some(|front|)
  {
    var name := front + "[key]" + rest;
    if front == "" {
      assert name[..5] == "[key]";
    } else {
      assert name[0] == front[0] && front[0] in front && name[..5][0] == front[0] && "[key]"[0] == '[';
      assert name[1..] == front[1..] + "[key]" + rest;
      assert forall c :: c in front[1..] ==> c in front;
      FindKeyAt(front[1..], rest);
    }
  }

  /** The entry of a map is cut before its key. */
  lemma KeyedEntry(key: Key, depth: nat, name: string, rest: string, kind: string, typ: string)
    requires WellNamed(name) && !IsRepeated(Spaces(2 * depth) + name + "[key]" + rest)
    ensures var f := Field(key, Spaces(2 * depth) + name + "[key]" + rest, kind, typ);
            FieldName(f) == name && Indent(CutName(f.name)) == Some(2 * depth)
  {
    var plain := Spaces(2 * depth) + name;
    assert forall c :: c in plain ==> c != '[';
    FindKeyAt(plain, rest);
    assert (plain + "[key]" + rest)[..|plain|] == plain;
    IndentOf(2 * depth, name);
    TrimOf(2 * depth, name);
  }
}
