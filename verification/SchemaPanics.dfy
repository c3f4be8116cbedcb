/** Which field lists, and which schemas, make the loop of message/protobuf.go panic. */
module SchemaPanics {
  import opened Collections
  import opened Schema
  import opened BuilderText
  import opened SchemaRoundTrip
  import opened SchemaTree

  // ---------------------------------------------------------------- field lists

  /** Where a field list has got to: the last field's message, its depth, and whether a repeated struct is open. */
  datatype Mark = Mark(prev: Option<Key>, depth: nat, open: bool)

  const OUTSET := Mark(None, 0, false)

  /** A repeated struct is closed by the next field of its message at the top level. */
  function Next(m: Mark, f: Field): Mark {
    var closed := m.prev == Some(f.key) && m.depth > 0 && Landing(m.depth, f) == 0;
    Mark(Some(f.key), NextDepth(m.prev, m.depth, f), (m.open && !closed) || (IsNested(f) && IsRepeated(f.name)))
  }

  /** A new message starts with a plain field while a repeated struct of an earlier one is open. */
  predicate PanicsAt(m: Mark, f: Field) {
    m.open && m.prev != Some(f.key) && !IsNested(f)
  }

  /** Read off the list alone. */
  predicate ListPanics(m: Mark, fs: seq<Field>)
    decreases fs
  {
    fs != [] && (PanicsAt(m, fs[0]) || ListPanics(Next(m, fs[0]), fs[1..]))
  }

  function MarkOf(s: State): Mark {
    Mark(s.prev, s.depth, s.doSlice)
  }

  lemma {:induction false} PopToSlice(s: State, d: nat)
    requires InMessage(s) && (s.doSlice ==> s.depth > 0)
    ensures PopTo(s, d).doSlice == (s.doSlice && PopTo(s, d).depth > 0)
    decreases s.depth
  {
    if s.depth > d {
      PopToSlice(PopOne(s), d);
    }
  }

  lemma StepMarks(s: State, f: Field)
    requires Invariant(s) && !s.panicked && (s.doSlice ==> s.depth > 0)
    ensures var r := Step(s, f);
            && (r.panicked <==> PanicsAt(MarkOf(s), f))
            && (!r.panicked ==> MarkOf(r) == Next(MarkOf(s), f) && (r.doSlice ==> r.depth > 0))
  {
    if s.prev == Some(f.key) && Indent(CutName(f.name)).Some? {
      PopToSlice(s, Indent(CutName(f.name)).value / 2);
    }
  }

  lemma {:induction false} StepsMarks(s: State, fs: seq<Field>)
    requires Invariant(s) && !s.panicked && (s.doSlice ==> s.depth > 0)
    ensures Steps(s, fs).panicked <==> ListPanics(MarkOf(s), fs)
    decreases fs
  {
    if fs != [] {
      StepMarks(s, fs[0]);
      if !Step(s, fs[0]).panicked {
        StepsMarks(Step(s, fs[0]), fs[1..]);
      }
    }
  }

  /** For every field list: the loop panics exactly when a message starts with a plain field while a repeated struct of
      an earlier message has not been closed by a later top-level field of its own. */
  lemma PanicsIff(fs: seq<Field>)
    ensures Steps(START, fs).panicked <==> ListPanics(OUTSET, fs)
  {
    StepsMarks(START, fs);
  }

  // ---------------------------------------------------------------- schemas

  function Reach(m: Mark, fs: seq<Field>): Mark
    decreases fs
  {
    if fs == [] then m else Reach(Next(m, fs[0]), fs[1..])
  }

  lemma {:induction false} ReachConcat(m: Mark, a: seq<Field>, b: seq<Field>)
    ensures Reach(m, a + b) == Reach(Reach(m, a), b)
    ensures ListPanics(m, a + b) <==> ListPanics(m, a) || ListPanics(Reach(m, a), b)
    decreases a
  {
    if a == [] {
      assert a + b == b;
    } else {
      assert (a + b)[1..] == a[1..] + b;
      ReachConcat(Next(m, a[0]), a[1..], b);
    }
  }

  /** A member that holds a repeated struct, at any depth. */
  predicate Slices(d: Decl) {
    d.Struct? && (d.repeated || !NoSlices(d.members))
  }

  lemma EntryMark(m: Mark, key: Key, depth: nat, d: Decl)
    requires WellFormed([d]) && m.prev == Some(key) && m.depth >= depth
    ensures var f := FieldOf(key, depth, d);
            && Next(m, f) == Mark(Some(key), if d.Struct? then depth + 1 else depth,
                                  (m.open && !(m.depth > 0 && depth == 0)) || (d.Struct? && d.repeated))
            && !PanicsAt(m, f)
  {
    EntryOf(key, depth, d);
    assert (2 * depth) / 2 == depth;
  }

  lemma FirstMember(m: Mark, key: Key, depth: nat, ds: seq<Decl>)
    requires ds != []
    ensures var f, inner, rest := FieldOf(key, depth, ds[0]),
                                  if ds[0].Struct? then Flatten(key, depth + 1, ds[0].members) else [], Flatten(key, depth, ds[1..]);
            && Reach(m, Flatten(key, depth, ds)) == Reach(Reach(Next(m, f), inner), rest)
            && (ListPanics(m, Flatten(key, depth, ds)) <==>
                PanicsAt(m, f) || ListPanics(Next(m, f), inner) || ListPanics(Reach(Next(m, f), inner), rest))
  {
    var f, inner, rest := FieldOf(key, depth, ds[0]),
                          if ds[0].Struct? then Flatten(key, depth + 1, ds[0].members) else [], Flatten(key, depth, ds[1..]);
    assert Flatten(key, depth, ds) == [f] + (inner + rest);
    assert ([f] + (inner + rest))[1..] == inner + rest;
    ReachConcat(Next(m, f), inner, rest);
  }

  lemma FirstWellFormed(ds: seq<Decl>)
    requires WellFormed(ds) && ds != []
    ensures WellFormed([ds[0]]) && WellFormed(ds[1..]) && (ds[0].Struct? ==> WellFormed(ds[0].members))
  {
    assert [ds[0]][1..] == [];
  }

  /** Below the top level nothing closes a repeated struct. */
  lemma {:induction false} InnerMarks(m: Mark, key: Key, depth: nat, ds: seq<Decl>)
    requires WellFormed(ds) && m.prev == Some(key) && m.depth >= depth > 0
    ensures var r := Reach(m, Flatten(key, depth, ds));
            r.prev == Some(key) && r.depth >= depth && r.open == (m.open || !NoSlices(ds))
    ensures !ListPanics(m, Flatten(key, depth, ds))
    decreases ds
  {
    if ds != [] {
      FirstWellFormed(ds);
      FirstMember(m, key, depth, ds);
      EntryMark(m, key, depth, ds[0]);
      var n := Next(m, FieldOf(key, depth, ds[0]));
      if ds[0].Struct? {
        InnerMarks(n, key, depth + 1, ds[0].members);
        InnerMarks(Reach(n, Flatten(key, depth + 1, ds[0].members)), key, depth, ds[1..]);
      } else {
        InnerMarks(n, key, depth, ds[1..]);
      }
    }
  }

  /** The entries of a top-level member: the field itself, and those of its members. */
  function Entries(key: Key, top: nat, d: Decl): seq<Field> {
    [FieldOf(key, top, d)] + if d.Struct? then Flatten(key, top + 1, d.members) else []
  }

  lemma FirstEntries(m: Mark, key: Key, top: nat, ds: seq<Decl>)
    requires ds != []
    ensures Reach(m, Flatten(key, top, ds)) == Reach(Reach(m, Entries(key, top, ds[0])), Flatten(key, top, ds[1..]))
    ensures ListPanics(m, Flatten(key, top, ds)) <==>
            ListPanics(m, Entries(key, top, ds[0])) || ListPanics(Reach(m, Entries(key, top, ds[0])), Flatten(key, top, ds[1..]))
  {
    var es, rest := Entries(key, top, ds[0]), Flatten(key, top, ds[1..]);
    assert Flatten(key, top, ds) == es + rest;
    ReachConcat(m, es, rest);
  }

  lemma EntriesReach(m: Mark, key: Key, top: nat, d: Decl)
    ensures var f, inner := FieldOf(key, top, d), if d.Struct? then Flatten(key, top + 1, d.members) else [];
            && Reach(m, Entries(key, top, d)) == Reach(Next(m, f), inner)
            && (ListPanics(m, Entries(key, top, d)) <==> PanicsAt(m, f) || ListPanics(Next(m, f), inner))
  {
    var f, inner := FieldOf(key, top, d), if d.Struct? then Flatten(key, top + 1, d.members) else [];
    assert ([f] + inner)[1..] == inner;
  }

  lemma FieldNested(key: Key, top: nat, d: Decl)
    requires WellFormed([d])
    ensures IsNested(FieldOf(key, top, d)) == d.Struct?
  {
  }

  lemma StructMark(m: Mark, key: Key, top: nat, d: Decl)
    requires d.Struct? && WellFormed([d]) && WellFormed(d.members)
    requires Next(m, FieldOf(key, top, d)).prev == Some(key) && Next(m, FieldOf(key, top, d)).depth == top + 1
    ensures var n, r := Next(m, FieldOf(key, top, d)), Reach(m, Entries(key, top, d));
            r.prev == Some(key) && r.depth > top && r.open == (n.open || !NoSlices(d.members)) && !ListPanics(m, Entries(key, top, d))
  {
    FieldNested(key, top, d);
    EntriesReach(m, key, top, d);
    InnerMarks(Next(m, FieldOf(key, top, d)), key, top + 1, d.members);
  }

  lemma PlainMark(m: Mark, key: Key, top: nat, d: Decl)
    requires d.Member? && (m.prev == Some(key) || !m.open)
    ensures Reach(m, Entries(key, top, d)) == Next(m, FieldOf(key, top, d)) && !ListPanics(m, Entries(key, top, d))
  {
    EntriesReach(m, key, top, d);
  }

  /** A member of a message that has started: what is open after it is its own. */
  lemma MemberMark(m: Mark, key: Key, top: nat, d: Decl)
    requires top == 0 && m.prev == Some(key) && (m.open ==> m.depth > 0)
    requires WellFormed([d]) && (d.Struct? ==> WellFormed(d.members))
    ensures var r := Reach(m, Entries(key, top, d));
            r.prev == Some(key) && (r.open ==> r.depth > 0) && r.open == Slices(d) && !ListPanics(m, Entries(key, top, d))
  {
    EntryMark(m, key, top, d);
    if d.Struct? {
      StructMark(m, key, top, d);
    } else {
      PlainMark(m, key, top, d);
    }
  }

  /** After the first member of a message, only its last member matters. */
  lemma {:induction false} TopMarks(m: Mark, key: Key, top: nat, ds: seq<Decl>)
    requires top == 0 && WellFormed(ds) && m.prev == Some(key) && (m.open ==> m.depth > 0)
    ensures var r := Reach(m, Flatten(key, top, ds));
            r.prev == Some(key) && (r.open ==> r.depth > 0) && r.open == if ds == [] then m.open else Slices(ds[|ds|-1])
    ensures !ListPanics(m, Flatten(key, top, ds))
    decreases ds
  {
    if ds != [] {
      FirstWellFormed(ds);
      FirstEntries(m, key, top, ds);
      MemberMark(m, key, top, ds[0]);
      TopMarks(Reach(m, Entries(key, top, ds[0])), key, top, ds[1..]);
    }
  }

  /** Whether a repeated struct is open after a message: the last member holds one, or an earlier message left one open
      and the message is a single struct, which never comes back to the top level. */
  predicate LeftOpen(open: bool, ds: seq<Decl>) {
    ds != [] && ds[|ds|-1].Struct? && (Slices(ds[|ds|-1]) || (open && |ds| == 1))
  }

  lemma MessageMarks(m: Mark, key: Key, top: nat, ds: seq<Decl>)
    requires top == 0 && WellFormed(ds) && ds != [] && m.prev != Some(key)
    ensures ListPanics(m, Flatten(key, top, ds)) <==> m.open && ds[0].Member?
    ensures !ListPanics(m, Flatten(key, top, ds)) ==>
              Reach(m, Flatten(key, top, ds)).prev == Some(key) && Reach(m, Flatten(key, top, ds)).open == LeftOpen(m.open, ds)
  {
    FirstWellFormed(ds);
    FirstEntries(m, key, top, ds);
    FieldNested(key, top, ds[0]);
    if ds[0].Struct? {
      EntryOf(key, top, ds[0]);
      StructMark(m, key, top, ds[0]);
      TopMarks(Reach(m, Entries(key, top, ds[0])), key, top, ds[1..]);
    } else if !m.open {
      PlainMark(m, key, top, ds[0]);
      TopMarks(Reach(m, Entries(key, top, ds[0])), key, top, ds[1..]);
    } else {
      EntriesReach(m, key, top, ds[0]);
    }
  }

  /** Read off the schema: a message starts with a plain member while a repeated struct is open. */
  predicate SchemaFails(open: bool, ms: seq<Message>)
    decreases ms
  {
    ms != [] && ms[0].members != []
    && ((open && ms[0].members[0].Member?) || SchemaFails(LeftOpen(open, ms[0].members), ms[1..]))
  }

  lemma {:induction false} SchemaMarks(m: Mark, ms: seq<Message>)
    requires WellFormedSchema(m.prev, ms)
    ensures ListPanics(m, FlattenAll(ms)) <==> SchemaFails(m.open, ms)
    decreases ms
  {
    if ms != [] {
      var fs := Flatten(ms[0].key, 0, ms[0].members);
      ReachConcat(m, fs, FlattenAll(ms[1..]));
      MessageMarks(m, ms[0].key, 0, ms[0].members);
      if !ListPanics(m, fs) {
        SchemaMarks(Reach(m, fs), ms[1..]);
      }
    }
  }

  /** For every schema: the loop panics on its flattened list exactly when a message that starts with a plain member comes
      after one whose last member holds a repeated struct, with nothing but messages of a single struct in between. */
  lemma SchemaPanicsIff(ms: seq<Message>)
    requires WellFormedSchema(None, ms)
    ensures Steps(START, FlattenAll(ms)).panicked <==> SchemaFails(false, ms)
  {
    PanicsIff(FlattenAll(ms));
    SchemaMarks(OUTSET, ms);
  }

  /** Two messages, the first ending with a repeated struct. */
  lemma PanickingSchema()
    ensures var inner := Member("Size", false, "int", "int");
            var ms := [Message(Key("file", "measure"), [Struct("Disks", true, "Disk", [inner])]), Message(Key("net", "measure"), [inner])];
            WellFormedSchema(None, ms) && Steps(START, FlattenAll(ms)).panicked
  {
    var inner := Member("Size", false, "int", "int");
    var first, second := Message(Key("file", "measure"), [Struct("Disks", true, "Disk", [inner])]), Message(Key("net", "measure"), [inner]);
    var ms := [first, second];
    assert WellNamed("Size") && WellNamed("Disks");
    assert first.members[1..] == [] && second.members[1..] == [] && ms[1..] == [second] && ms[1..][1..] == [];
    assert WellFormed(second.members) && WellFormed(first.members);
    assert WellFormedSchema(Some(first.key), [second]);
    assert LeftOpen(false, first.members);
    assert SchemaFails(true, [second]);
    SchemaPanicsIff(ms);
  }

  lemma OneStruct(key: Key, depth: nat, d: Decl, inner: Decl)
    requires d.Struct? && inner.Member? && d.members == [inner]
    ensures Flatten(key, depth, [d]) == [FieldOf(key, depth, d), FieldOf(key, depth + 1, inner)]
  {
    assert [inner][1..] == [] && [d][1..] == [];
    assert Flatten(key, depth + 1, [inner]) == [FieldOf(key, depth + 1, inner)] + [] + Flatten(key, depth + 1, []);
    assert Flatten(key, depth, [d]) == [FieldOf(key, depth, d)] + Flatten(key, depth + 1, [inner]) + Flatten(key, depth, []);
  }

  /** A repeated struct and a member of it, and no field after them. */
  lemma LeavesOpen(key: Key, f: Field, g: Field)
    requires f.key == key && g.key == key && IsNested(f) && IsRepeated(f.name) && Landing(1, g) == 1
    ensures !SlicesAtTop(None, 0, false, [f, g]) && !ListPanics(OUTSET, [f, g])
  {
    assert [f, g][1..] == [g] && [g][1..] == [];
    assert NextDepth(None, 0, f) == 1 && NextInside(None, 0, false, f) && NextInside(Some(key), 1, true, g);
    assert !SlicesAtTop(Some(key), 1, true, [g]);
    assert !ListPanics(Next(OUTSET, f), [g]);
  }

  /** A message of one repeated struct: no panic, but the text does not close what it opens. */
  lemma LastSliceUnbalanced(key: Key, top: nat, d: Decl, inner: Decl)
    requires top == 0 && d.Struct? && d.repeated && d.members == [inner] && inner.Member? && WellFormed([d])
    ensures var r := Steps(START, Flatten(key, top, [d])); !r.panicked && !Balanced(Output(r))
  {
    var f, g := FieldOf(key, top, d), FieldOf(key, top + 1, inner);
    FirstWellFormed([d]);
    FirstWellFormed([inner]);
    EntryOf(key, top, d);
    EntryOf(key, top + 1, inner);
    OneStruct(key, top, d, inner);
    LeavesOpen(key, f, g);
    BalancedIffSlicesAtTop([f, g]);
    PanicsIff([f, g]);
  }

  lemma UnbalancedSchema(key: Key, top: nat, disks: Decl, size: Decl)
    requires top == 0 && size == Member("Size", false, "int", "int") && disks == Struct("Disks", true, "Disk", [size])
    ensures var r := Steps(START, Flatten(key, top, [disks])); !r.panicked && !Balanced(Output(r))
  {
    assert WellNamed("Disks") && WellNamed("Size");
    assert [size][1..] == [] && [disks][1..] == [];
    assert WellFormed([size]);
    LastSliceUnbalanced(key, top, disks, size);
  }
}
