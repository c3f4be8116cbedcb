/** The loop of message/protobuf.go over the flat field list. */
module Protobuf {
  import opened Collections
  import opened Schema
  import opened BuilderText
  import opened SchemaPanics

  class Compiler {
    var prev: Option<Key>
    var depth: nat
    var node: nat
    var nodes: seq<Node>
    var tree: map<TypeName, nat>
    var qualifiers: seq<string>
    var doSlice: bool
    var out: seq<Token>

    ghost function Now(panicked: bool): State
      reads this
    {
      State(prev, depth, node, nodes, tree, qualifiers, doSlice, out, panicked)
    }

    constructor ()
      ensures Now(false) == START
    {
      prev, depth, node, nodes, tree, qualifiers, doSlice, out := None, 0, 0, [], map[], [], false, [];
    }

    /** Closes the open builders of a finished message. */
    method CloseAll()
      requires InMessage(Now(false))
      modifies this`depth, this`node, this`out
      ensures depth == 0 && out == EndMessage(old(Now(false)))
    {
      ghost var closed := 0;
      assert old(out) + Repeat(0) == old(out);
      while depth > 0
        invariant closed + depth == old(depth)
        invariant node < |nodes| && Level(nodes, node) == depth
        invariant out == old(out) + Repeat(closed)
      {
        node := nodes[node].parent.value;
        assert Repeat(closed + 1) == Repeat(closed) + [BuildClose];
        out := out + [BuildClose];
        depth := depth - 1;
        closed := closed + 1;
      }
      out := out + [MessageClose];
    }

    method Begin(key: Key)
      requires Invariant(Now(false))
      modifies this
      ensures Now(false) == StartMessage(old(Now(false)), key)
    {
      if prev.Some? {
        CloseAll();
      }
      out := out + [MessageOpen(TypeOf(key))];
      prev := Some(key);
      depth := 0;
      tree := tree[TypeOf(key) := |nodes|];
      node := |nodes|;
      nodes := nodes + [Node(TypeOf(key), None, map[], [])];
      qualifiers := [];
    }

    /** Moves up to the level that the field's indentation asks for. */
    method Pop(level: nat)
      requires InMessage(Now(false))
      modifies this`depth, this`node, this`out, this`qualifiers, this`doSlice
      ensures Now(false) == PopTo(old(Now(false)), level)
    {
      while depth > level
        invariant InMessage(Now(false))
        invariant PopTo(Now(false), level) == PopTo(old(Now(false)), level)
      {
        Up();
      }
    }

    method Up()
      requires InMessage(Now(false)) && depth > 0
      modifies this`depth, this`node, this`out, this`qualifiers, this`doSlice
      ensures Now(false) == PopOne(old(Now(false)))
    {
      node := nodes[node].parent.value;
      out := out + [BuildClose];
      qualifiers := qualifiers[..|qualifiers|-1];
      if depth == 1 && doSlice {
        assert out + [SliceClose] == old(out) + [BuildClose, SliceClose];
        doSlice := false;
        out := out + [SliceClose];
      }
      depth := depth - 1;
    }

    /** Adds the field to the node, and a new node below it for the field's type. */
    method Descend(f: Field)
      requires InMessage(Now(false))
      modifies this`nodes, this`node, this`depth, this`qualifiers
      ensures nodes == AddChild(AddTo(old(nodes), old(node), Sliced(f)), old(node), f.typ)
      ensures ValidNodes(nodes) && node == |old(nodes)|
      ensures depth == old(depth) + 1 && qualifiers == old(qualifiers) + [FieldName(f)]
    {
      nodes := AddTo(nodes, node, Sliced(f));
      nodes := AddChild(nodes, node, f.typ);
      node := |nodes| - 1;
      depth := depth + 1;
      qualifiers := qualifiers + [FieldName(f)];
    }

    method Nest(f: Field)
      requires InMessage(Now(false)) && IsNested(f)
      modifies this
      ensures Now(false) == Enter(old(Now(false)), f)
    {
      ghost var s := Now(false);
      Descend(f);
      EnterParts(s, f);
      assert nodes == Enter(s, f).nodes && node == Enter(s, f).node;
      var qualifier := QualifiedType();
      if IsRepeated(f.name) {
        doSlice := true;
        out := out + [SliceOpen(FieldName(f), qualifier)];
      } else {
        out := out + [StructOpen(FieldName(f), qualifier)];
      }
      EnterParts(s, f);
      assert out == Enter(s, f).out && doSlice == Enter(s, f).doSlice;
    }

    /** Collects the messages from the node up to the root, each put in front of the ones below it. */
    method QualifiedType() returns (messages: seq<TypeName>)
      requires ValidNodes(nodes) && node < |nodes|
      ensures messages == Path(nodes, node)
    {
      messages := [nodes[node].message];
      var n := nodes[node].parent;
      while n.Some?
        invariant n.Some? ==> n.value < |nodes|
        invariant Path(nodes, node) == (if n.Some? then Path(nodes, n.value) else []) + messages
        decreases if n.Some? then n.value + 1 else 0
      {
        var above := nodes[n.value];
        PathAbove(nodes, n.value, messages);
        messages := [above.message] + messages;
        n := above.parent;
      }
    }

    method Set(f: Field) returns (panicked: bool)
      requires InMessage(Now(false))
      modifies this
      ensures Now(panicked) == Assign(old(Now(false)), f)
    {
      LevelsKept(nodes, AddTo(nodes, node, Sliced(f)), node);
      nodes := nodes[node := nodes[node].(fields := nodes[node].fields + [Sliced(f)])];
      panicked := false;
      var qualifier := qualifiers;
      if doSlice {
        if qualifiers == [] {
          panicked := true;
          return;
        }
        qualifier := qualifiers[1..];
      }
      out := out + [Scalar(FormOf(Sliced(f)), FieldName(f), qualifier)];
    }

    /** The body of the loop. */
    method AddField(f: Field) returns (panicked: bool)
      requires Invariant(Now(false))
      modifies this
      ensures Now(panicked) == Step(old(Now(false)), f)
    {
      if prev != Some(f.key) {
        Begin(f.key);
      }
      var indent := Indent(CutName(f.name));
      if indent.Some? {
        Pop(indent.value / 2);
      }
      panicked := false;
      if IsNested(f) {
        Nest(f);
      } else {
        panicked := Set(f);
      }
    }

    /** The whole loop, and the closing of the last message. */
    method Compile(fields: seq<Field>) returns (panicked: bool)
      requires Now(false) == START
      modifies this
      ensures panicked == Steps(START, fields).panicked == ListPanics(OUTSET, fields)
      ensures !panicked ==> out == Output(Steps(START, fields)) && nodes == Steps(START, fields).nodes && tree == Steps(START, fields).tree
      ensures (!panicked && Balanced(out)) <==> SlicesAtTop(None, 0, false, fields)
    {
      panicked := false;
      BalancedIffSlicesAtTop(fields);
      PanicsIff(fields);
      assert fields[..0] == [];
      for i := 0 to |fields|
        invariant Invariant(Now(false)) && Now(false) == Steps(START, fields[..i])
      {
        PrefixStep(fields, i);
        panicked := AddField(fields[i]);
        if panicked {
          PanicStays(fields, i + 1);
          return;
        }
      }
      assert fields[..|fields|] == fields;
      if prev.Some? {
        CloseAll();
      }
    }
  }

  lemma EnterParts(s: State, f: Field)
    requires InMessage(s)
    ensures var r := Enter(s, f);
            && r.nodes == AddChild(AddTo(s.nodes, s.node, Sliced(f)), s.node, f.typ) && r.node == |s.nodes|
            && r.depth == s.depth + 1 && r.qualifiers == s.qualifiers + [FieldName(f)]
            && r.prev == s.prev && r.tree == s.tree && r.panicked == s.panicked && r.doSlice == (s.doSlice || IsRepeated(f.name))
            && r.out == s.out + [if IsRepeated(f.name) then SliceOpen(FieldName(f), Path(r.nodes, r.node)) else StructOpen(FieldName(f), Path(r.nodes, r.node))]
  {
  }

  lemma PathAbove(nodes: seq<Node>, i: nat, below: seq<TypeName>)
    requires ValidNodes(nodes) && i < |nodes|
    ensures Path(nodes, i) + below ==
            (if nodes[i].parent.None? then [] else Path(nodes, nodes[i].parent.value)) + ([nodes[i].message] + below)
  {
  }

  lemma PanicStays(fields: seq<Field>, i: nat)
    requires i <= |fields| && Steps(START, fields[..i]).panicked
    ensures Steps(START, fields) == Steps(START, fields[..i])
  {
    StepsConcat(START, fields[..i], fields[i..]);
    assert fields[..i] + fields[i..] == fields;
  }

  lemma PrefixStep(fields: seq<Field>, i: nat)
    requires i < |fields|
    ensures Steps(START, fields[..i+1]) == Step(Steps(START, fields[..i]), fields[i])
  {
    assert fields[..i+1] == fields[..i] + [fields[i]];
    StepsConcat(START, fields[..i], [fields[i]]);
    var s := Steps(START, fields[..i]);
    assert [fields[i]][1..] == [];
    assert Steps(s, [fields[i]]) == Steps(Step(s, fields[i]), []);
  }
}
