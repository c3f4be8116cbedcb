/** Flattening a nested schema to an indented list and running the loop of message/protobuf.go rebuilds it. */
module SchemaRoundTrip {
  import opened Collections
  import opened Schema

  /** A member of a message: a plain value, or a nested struct. */
  datatype Decl =
    | Member(name: string, repeated: bool, kind: string, typ: string)
    | Struct(name: string, repeated: bool, typ: string, members: seq<Decl>)

  datatype Message = Message(key: Key, members: seq<Decl>)

  predicate WellNamed(name: string) {
    name != "" && forall c :: c in name ==> !IsSpace(c) && c != '['
  }

  predicate WellFormed(ds: seq<Decl>)
    decreases ds
  {
    ds == [] || (
      && WellNamed(ds[0].name)
      && (match ds[0]
          case Member(_, _, kind, typ) => kind != "struct" || typ == "Time"
          case Struct(_, _, typ, members) => typ != "Time" && WellFormed(members))
      && WellFormed(ds[1..]))
  }

  function Spaces(n: nat): (r: string)
    ensures |r| == n && forall i :: 0 <= i < n ==> r[i] == ' '
  {
    if n == 0 then "" else " " + Spaces(n - 1)
  }

  /** The list entry of a member at a depth: two spaces of indentation per level. */
  function FieldOf(key: Key, depth: nat, d: Decl): Field {
    Field(key, Spaces(2 * depth) + d.name + (if d.repeated then "[n]" else ""), if d.Struct? then "struct" else d.kind, d.typ)
  }

  function Flatten(key: Key, depth: nat, ds: seq<Decl>): seq<Field>
    decreases ds
  {
    if ds == [] then []
    else
      [FieldOf(key, depth, ds[0])]
      + (if ds[0].Struct? then Flatten(key, depth + 1, ds[0].members) else [])
      + Flatten(key, depth, ds[1..])
  }

  function FlattenAll(ms: seq<Message>): seq<Field> {
    if ms == [] then [] else Flatten(ms[0].key, 0, ms[0].members) + FlattenAll(ms[1..])
  }

  /** Every message has members, and its key differs from its predecessor's. */
  predicate WellFormedSchema(prev: Option<Key>, ms: seq<Message>)
    decreases ms
  {
    ms == [] || (
      && prev != Some(ms[0].key) && ms[0].members != [] && WellFormed(ms[0].members)
      && WellFormedSchema(Some(ms[0].key), ms[1..]))
  }

  // ---------------------------------------------------------------- reading back a name

  lemma {:induction false} NoBracketNoKey(name: string)
    requires forall c :: c in name ==> c != '['
    ensures FindKey(name) == None
  {
    if |name| >= 5 {
      assert name[0] in name && name[..5][0] == name[0] && "[key]"[0] == '[';
      assert forall c :: c in name[1..] ==> c in name;
      NoBracketNoKey(name[1..]);
    }
  }

  lemma {:induction false} IndentOf(n: nat, name: string)
    requires WellNamed(name)
    ensures Indent(Spaces(n) + name) == Some(n)
  {
    if n == 0 {
      assert Spaces(0) + name == name;
      assert name[0] in name;
    } else {
      assert (Spaces(n) + name)[1..] == Spaces(n - 1) + name;
      IndentOf(n - 1, name);
    }
  }

  lemma {:induction false} TrimOf(n: nat, name: string)
    requires WellNamed(name)
    ensures Trim(Spaces(n) + name) == name
  {
    if n == 0 {
      assert Spaces(0) + name == name;
      assert name[0] in name && name[|name|-1] in name;
    } else {
      assert (Spaces(n) + name)[1..] == Spaces(n - 1) + name;
      TrimOf(n - 1, name);
    }
  }

  /** The entry of a well-named member gives back its indentation, its name and whether it is repeated. */
  lemma EntryOf(key: Key, depth: nat, d: Decl)
    requires WellNamed(d.name)
    ensures var f := FieldOf(key, depth, d);
            && IsRepeated(f.name) == d.repeated
            && Indent(CutName(f.name)) == Some(2 * depth)
            && FieldName(f) == d.name
  {
    var f := FieldOf(key, depth, d);
    var plain := Spaces(2 * depth) + d.name;
    assert forall c :: c in plain ==> c != '[';
    if d.repeated {
      assert f.name[|f.name|-3..] == "[n]" && f.name[..|f.name|-3] == plain;
    } else {
      assert f.name == plain;
      NoBracketNoKey(plain);
      if |plain| >= 3 {
        assert plain[|plain|-3] in plain && plain[|plain|-3..][0] == plain[|plain|-3];
      }
    }
    IndentOf(2 * depth, d.name);
    TrimOf(2 * depth, d.name);
  }

  // ---------------------------------------------------------------- the recursive descent that the flat loop amounts to

  /** Inside a message, with no repeated struct left open at the top level. */
  predicate Calm(s: State) {
    InMessage(s) && !s.panicked && (s.doSlice ==> s.depth > 0)
  }

  function After(s: State, key: Key, ds: seq<Decl>): (r: State)
    requires Calm(s)
    ensures Calm(r) && r.depth == s.depth && r.prev == s.prev
    decreases ds
  {
    if ds == [] then s
    else
      var f := FieldOf(key, s.depth, ds[0]);
      match ds[0]
      case Member(_, _, _, _) => After(Assign(s, f), key, ds[1..])
      case Struct(_, _, _, members) => After(PopOne(After(Enter(s, f), key, members)), key, ds[1..])
  }

  lemma {:induction false} PopToCalm(s: State, d: nat)
    requires Calm(s)
    ensures Calm(PopTo(s, d))
    decreases s.depth
  {
    if s.depth > d {
      PopToCalm(PopOne(s), d);
    }
  }

  lemma {:induction false} PopToNext(s: State, d: nat)
    requires InMessage(s) && s.depth > d
    ensures PopTo(s, d) == PopOne(PopTo(s, d + 1))
    decreases s.depth
  {
    if s.depth > d + 1 {
      PopToNext(PopOne(s), d);
    }
  }

  lemma {:induction false} PopToTwice(s: State, d: nat)
    requires InMessage(s)
    ensures PopTo(PopTo(s, d), d) == PopTo(s, d)
    decreases s.depth
  {
    if s.depth > d {
      PopToTwice(PopOne(s), d);
    }
  }

  function AfterPop(s: State, key: Key, depth: nat, ds: seq<Decl>): (r: State)
    requires Calm(s)
    ensures s.depth >= depth ==> r.depth == depth
  {
    PopToCalm(s, depth);
    After(PopTo(s, depth), key, ds)
  }

  lemma StepAt(s: State, f: Field, depth: nat)
    requires Calm(s) && s.prev == Some(f.key) && s.depth >= depth && Indent(CutName(f.name)) == Some(2 * depth)
    ensures var r := Step(s, f);
            && r == (if IsNested(f) then Enter(PopTo(s, depth), f) else Assign(PopTo(s, depth), f))
            && Calm(r) && r.prev == Some(f.key) && r.depth == (if IsNested(f) then depth + 1 else depth)
  {
    PopToCalm(s, depth);
    assert (2 * depth) / 2 == depth;
  }

  /** One member's entry: the loop moves up to the member's level, then enters or assigns. */
  lemma EntryStep(s: State, key: Key, depth: nat, d: Decl)
    requires Calm(s) && s.prev == Some(key) && s.depth >= depth
    requires WellNamed(d.name) && (if d.Struct? then d.typ != "Time" else d.kind != "struct" || d.typ == "Time")
    ensures var r := Step(s, FieldOf(key, depth, d));
            && r == (if d.Struct? then Enter(PopTo(s, depth), FieldOf(key, depth, d)) else Assign(PopTo(s, depth), FieldOf(key, depth, d)))
            && Calm(r) && r.prev == Some(key) && r.depth == (if d.Struct? then depth + 1 else depth)
  {
    EntryOf(key, depth, d);
    StepAt(s, FieldOf(key, depth, d), depth);
  }

  lemma FlattenFirst(s: State, key: Key, depth: nat, ds: seq<Decl>)
    requires ds != [] && Invariant(s)
    ensures Steps(s, Flatten(key, depth, ds)) ==
            var u := Step(s, FieldOf(key, depth, ds[0]));
            Steps(if ds[0].Struct? then Steps(u, Flatten(key, depth + 1, ds[0].members)) else u, Flatten(key, depth, ds[1..]))
  {
    var f, rest := FieldOf(key, depth, ds[0]), Flatten(key, depth, ds[1..]);
    var inner := if ds[0].Struct? then Flatten(key, depth + 1, ds[0].members) else [];
    assert Flatten(key, depth, ds) == [f] + (inner + rest);
    assert ([f] + (inner + rest))[1..] == inner + rest;
    StepsConcat(Step(s, f), inner, rest);
  }

  /** The loop closes builders late, when the next field asks for it: moved up to its level, its state after
      the flattened members is that of the recursive descent. */
  lemma {:induction false} LoopDescends(s: State, key: Key, depth: nat, ds: seq<Decl>)
    requires Calm(s) && s.prev == Some(key) && s.depth >= depth && WellFormed(ds)
    ensures var r := Steps(s, Flatten(key, depth, ds));
            && Calm(r) && r.prev == Some(key) && r.depth >= depth
            && PopTo(r, depth) == AfterPop(s, key, depth, ds)
    decreases ds
  {
    PopToCalm(s, depth);
    if ds != [] {
      EntryStep(s, key, depth, ds[0]);
      FlattenFirst(s, key, depth, ds);
      var u := Step(s, FieldOf(key, depth, ds[0]));
      if ds[0].Struct? {
        var v := Steps(u, Flatten(key, depth + 1, ds[0].members));
        LoopDescends(u, key, depth + 1, ds[0].members);
        PopToNext(v, depth);
        LoopDescends(v, key, depth, ds[1..]);
      } else {
        LoopDescends(u, key, depth, ds[1..]);
      }
    }
  }
}
