/** The compiler from indented field lists to nested protobuf messages and Go builders: message/protobuf.go.
    This module gives the effect of each step of the loop as a function on its state. */
module Schema {
  import opened Collections

  /** A field list key: the package and its events ("file |create|update"). */
  datatype Key = Key(source: string, events: string)

  /** One entry of the flat list; `kind` and `typ` are the reflected kind and type name of its value. */
  datatype Field = Field(key: Key, name: string, kind: string, typ: string)

  datatype TypeName = Root(source: string, event: string) | Nested(name: string)

  /** A node of the message tree; nodes refer to each other by their position in the arena. */
  datatype Node = Node(message: TypeName, parent: Option<nat>, children: map<string, nat>, fields: seq<Field>)

  datatype Form = Timestamp | Duration | Integer | Reference | Raw | StringCast

  /** The text the loop writes, piece by piece. */
  datatype Token =
    | MessageOpen(typ: TypeName)
    | MessageClose
    | StructOpen(name: string, qualifier: seq<TypeName>)
    | SliceOpen(name: string, qualifier: seq<TypeName>)
    | BuildClose
    | SliceClose
    | Scalar(form: Form, name: string, accessor: seq<string>)

  datatype State = State(
    prev: Option<Key>,
    depth: nat,
    node: nat,
    nodes: seq<Node>,
    tree: map<TypeName, nat>,
    qualifiers: seq<string>,
    doSlice: bool,
    out: seq<Token>,
    panicked: bool)

  const START := State(None, 0, 0, [], map[], [], false, [], false)

  // ---------------------------------------------------------------- names

  predicate IsRepeated(name: string) {
    |name| >= 3 && name[|name|-3..] == "[n]"
  }

  /** Position of the first "[key]" in the name. */
  function FindKey(name: string): (r: Option<nat>)
    ensures r.Some? ==> r.value <= |name|
  {
    if |name| < 5 then None
    else if name[..5] == "[key]" then Some(0)
    else match FindKey(name[1..]) case None => None case Some(n) => Some(n + 1)
  }

  function CutName(name: string): string {
    if IsRepeated(name) then name[..|name|-3]
    else match FindKey(name) case Some(n) => name[..n] case None => name
  }

  /** Position of the first character that is not a space. */
  function Indent(name: string): Option<nat> {
    if name == "" then None
    else if name[0] != ' ' then Some(0)
    else match Indent(name[1..]) case None => None case Some(n) => Some(n + 1)
  }

  predicate IsSpace(c: char) {
    c == ' ' || c == '\t' || c == '\n' || c == '\r'
  }

  function TrimLeft(s: string): string {
    if s != "" && IsSpace(s[0]) then TrimLeft(s[1..]) else s
  }

  function TrimRight(s: string): string {
    if s != "" && IsSpace(s[|s|-1]) then TrimRight(s[..|s|-1]) else s
  }

  function Trim(s: string): string {
    TrimRight(TrimLeft(s))
  }

  function FieldName(f: Field): string {
    Trim(CutName(f.name))
  }

  /** The value of a repeated field is replaced by a slice of it. */
  function Sliced(f: Field): Field {
    if IsRepeated(f.name) then f.(kind := "slice") else f
  }

  predicate IsNested(f: Field) {
    f.kind == "struct" && f.typ != "Time"
  }

  function TypeOf(key: Key): TypeName {
    Root(key.source, if key.events != "measure" then "Observation" else "Measurement")
  }

  function FormOf(f: Field): Form {
    if f.kind == "slice" then Raw
    else if f.typ == "Time" then Timestamp
    else if f.typ == "Duration" then Duration
    else if f.kind == "int" then Integer
    else if f.kind == "string" && f.typ != "string" then StringCast
    else Reference
  }

  // ---------------------------------------------------------------- steps

  /** Every node's parent precedes it and its children follow it. */
  predicate ValidNodes(nodes: seq<Node>) {
    forall i :: 0 <= i < |nodes| ==>
      (nodes[i].parent.Some? ==> nodes[i].parent.value < i)
      && forall t :: t in nodes[i].children ==> i < nodes[i].children[t] < |nodes|
  }

  /** The types from the message down to node `i`. */
  function Path(nodes: seq<Node>, i: nat): (r: seq<TypeName>)
    requires ValidNodes(nodes) && i < |nodes|
    ensures r != []
  {
    (if nodes[i].parent.None? then [] else Path(nodes, nodes[i].parent.value)) + [nodes[i].message]
  }

  /** The number of ancestors of node `i`. */
  function Level(nodes: seq<Node>, i: nat): nat
    requires ValidNodes(nodes) && i < |nodes|
  {
    if nodes[i].parent.None? then 0 else Level(nodes, nodes[i].parent.value) + 1
  }

  /** Inside a message: the depth counts the node's ancestors, and the qualifiers name one struct per level. */
  predicate InMessage(s: State) {
    && s.prev.Some?
    && ValidNodes(s.nodes)
    && s.node < |s.nodes|
    && Level(s.nodes, s.node) == s.depth == |s.qualifiers|
    && (forall t :: t in s.tree ==> s.tree[t] < |s.nodes|)
  }

  predicate Invariant(s: State) {
    s.panicked || s == START || InMessage(s)
  }

  /** One step back up, closing a builder. */
  function PopOne(s: State): (r: State)
    requires InMessage(s) && s.depth > 0
    ensures InMessage(r) && r.depth == s.depth - 1 && r.prev == s.prev && r.panicked == s.panicked
  {
    var closesSlice := s.depth == 1 && s.doSlice;
    s.(node := s.nodes[s.node].parent.value,
       depth := s.depth - 1,
       qualifiers := s.qualifiers[..|s.qualifiers|-1],
       doSlice := s.doSlice && !closesSlice,
       out := s.out + (if closesSlice then [BuildClose, SliceClose] else [BuildClose]))
  }

  function PopTo(s: State, d: nat): (r: State)
    requires InMessage(s)
    ensures InMessage(r) && r.depth == (if s.depth > d then d else s.depth) && r.prev == s.prev && r.panicked == s.panicked
    decreases s.depth
  {
    if s.depth > d then PopTo(PopOne(s), d) else s
  }

  function Repeat(n: nat): (r: seq<Token>)
    ensures |r| == n
  {
    seq(n, i => BuildClose)
  }

  /** At the end of a message the open builders are closed, all in the plain way. */
  function EndMessage(s: State): seq<Token> {
    s.out + Repeat(s.depth) + [MessageClose]
  }

  function StartMessage(s: State, key: Key): (r: State)
    requires !s.panicked && Invariant(s)
    ensures InMessage(r) && r.depth == 0
  {
    var out := if s.prev.Some? then EndMessage(s) else s.out;
    var nodes := s.nodes + [Node(TypeOf(key), None, map[], [])];
    State(Some(key), 0, |s.nodes|, nodes, s.tree[TypeOf(key) := |s.nodes|], [], s.doSlice, out + [MessageOpen(TypeOf(key))], false)
  }

  function AddTo(nodes: seq<Node>, i: nat, f: Field): (r: seq<Node>)
    requires i < |nodes|
    ensures |r| == |nodes|
    ensures ValidNodes(nodes) ==> ValidNodes(r)
  {
    nodes[i := nodes[i].(fields := nodes[i].fields + [f])]
  }

  function AddChild(nodes: seq<Node>, i: nat, typ: string): (r: seq<Node>)
    requires i < |nodes|
    ensures |r| == |nodes| + 1
    ensures ValidNodes(nodes) ==> ValidNodes(r)
  {
    nodes[i := nodes[i].(children := nodes[i].children[typ := |nodes|])] + [Node(Nested(typ), Some(i), map[], [])]
  }

  lemma LevelsKept(nodes: seq<Node>, nodes': seq<Node>, i: nat)
    requires ValidNodes(nodes) && ValidNodes(nodes') && |nodes| <= |nodes'| && i < |nodes|
    requires forall j :: 0 <= j < |nodes| ==> nodes'[j].parent == nodes[j].parent && nodes'[j].message == nodes[j].message
    ensures Level(nodes', i) == Level(nodes, i)
    ensures Path(nodes', i) == Path(nodes, i)
  {
    if nodes[i].parent.Some? {
      LevelsKept(nodes, nodes', nodes[i].parent.value);
    }
  }

  /** A struct field opens a builder and descends into a new node. */
  function Enter(s: State, f: Field): (r: State)
    requires InMessage(s)
    ensures InMessage(r) && r.depth == s.depth + 1 && r.prev == s.prev && r.panicked == s.panicked
  {
    var added := AddTo(s.nodes, s.node, Sliced(f));
    var nodes := AddChild(added, s.node, f.typ);
    LevelsKept(s.nodes, nodes, s.node);
    var qualifier := Path(nodes, |s.nodes|);
    s.(nodes := nodes,
       node := |s.nodes|,
       depth := s.depth + 1,
       qualifiers := s.qualifiers + [FieldName(f)],
       doSlice := s.doSlice || IsRepeated(f.name),
       out := s.out + [if IsRepeated(f.name) then SliceOpen(FieldName(f), qualifier) else StructOpen(FieldName(f), qualifier)])
  }

  /** Any other field assigns a member of the builder; inside a repeated struct the accessor starts at the loop variable,
      and slicing off the first qualifier panics when there is none. */
  function Assign(s: State, f: Field): (r: State)
    requires InMessage(s)
    ensures r.panicked == (s.panicked || (s.doSlice && s.depth == 0))
    ensures !r.panicked ==> InMessage(r) && r.depth == s.depth && r.prev == s.prev
  {
    var nodes := AddTo(s.nodes, s.node, Sliced(f));
    LevelsKept(s.nodes, nodes, s.node);
    if s.doSlice && s.qualifiers == [] then s.(nodes := nodes, panicked := true)
    else
      var accessor := if s.doSlice then s.qualifiers[1..] else s.qualifiers;
      s.(nodes := nodes, out := s.out + [Scalar(FormOf(Sliced(f)), FieldName(f), accessor)])
  }

  function Step(s: State, f: Field): (r: State)
    requires Invariant(s)
    ensures Invariant(r) && (s.panicked ==> r == s)
    ensures !r.panicked ==> r.prev == Some(f.key)
  {
    if s.panicked then s
    else
      var s1 := if s.prev != Some(f.key) then StartMessage(s, f.key) else s;
      var s2 := match Indent(CutName(f.name)) case Some(i) => PopTo(s1, i / 2) case None => s1;
      if IsNested(f) then Enter(s2, f) else Assign(s2, f)
  }

  function Steps(s: State, fs: seq<Field>): (r: State)
    requires Invariant(s)
    ensures Invariant(r) && (s.panicked ==> r == s)
    decreases fs
  {
    if fs == [] then s else Steps(Step(s, fs[0]), fs[1..])
  }

  /** All the text, the last message closed. */
  function Output(s: State): seq<Token> {
    if s.prev.Some? then EndMessage(s) else s.out
  }

  lemma {:induction false} StepsConcat(s: State, a: seq<Field>, b: seq<Field>)
    requires Invariant(s)
    ensures Steps(s, a + b) == Steps(Steps(s, a), b)
    decreases a
  {
    if a == [] {
      assert a + b == b;
    } else {
      assert (a + b)[1..] == a[1..] + b;
      StepsConcat(Step(s, a[0]), a[1..], b);
    }
  }
}
