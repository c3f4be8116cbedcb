/** When the builder text written by message/protobuf.go nests properly. */
module BuilderText {
  import opened Collections
  import opened Schema

  // ---------------------------------------------------------------- brackets

  /** The kinds of brackets in the text: a copy function, its builder literal, the function literal
      and the loop of a repeated struct, and the nested builder of a struct or of a slice element. */
  datatype Kind = Func | Literal | SliceFunc | Loop | Build

  function Opening(open: Option<seq<Kind>>, k: Kind): Option<seq<Kind>> {
    if open.None? then None else Some(open.value + [k])
  }

  /** None when the closer does not fit the innermost opener. */
  function Closing(open: Option<seq<Kind>>, k: Kind): Option<seq<Kind>> {
    if open.Some? && open.value != [] && open.value[|open.value|-1] == k then Some(open.value[..|open.value|-1]) else None
  }

  /** Reads a piece of text against the stack of open brackets. */
  function Match(open: Option<seq<Kind>>, t: Token): Option<seq<Kind>> {
    match t
    case MessageOpen(_) => Opening(Opening(open, Func), Literal)
    case MessageClose => Closing(Closing(open, Literal), Func)
    case StructOpen(_, _) => Opening(open, Build)
    case SliceOpen(_, _) => Opening(Opening(Opening(open, SliceFunc), Loop), Build)
    case BuildClose => Closing(open, Build)
    case SliceClose => Closing(Closing(open, Loop), SliceFunc)
    case Scalar(_, _, _) => open
  }

  lemma CloseLast(open: seq<Kind>, k: Kind, k': Kind)
    ensures Closing(Some(open + [k]), k') == if k == k' then Some(open) else None
  {
    assert (open + [k])[..|open|] == open;
  }

  function MatchText(stack: Option<seq<Kind>>, ts: seq<Token>): Option<seq<Kind>>
    decreases ts
  {
    if ts == [] then stack else MatchText(Match(stack, ts[0]), ts[1..])
  }

  /** Every opener is closed by its own closer, innermost first. */
  predicate Balanced(ts: seq<Token>) {
    MatchText(Some([]), ts) == Some([])
  }

  lemma {:induction false} MatchTextConcat(stack: Option<seq<Kind>>, a: seq<Token>, b: seq<Token>)
    ensures MatchText(stack, a + b) == MatchText(MatchText(stack, a), b)
    decreases a
  {
    if a == [] {
      assert a + b == b;
    } else {
      assert (a + b)[1..] == a[1..] + b;
      MatchTextConcat(Match(stack, a[0]), a[1..], b);
    }
  }

  lemma {:induction false} MismatchStays(ts: seq<Token>)
    ensures MatchText(None, ts) == None
    decreases ts
  {
    if ts != [] {
      MismatchStays(ts[1..]);
    }
  }

  /** What is open after the text so far. */
  function Opened(s: State): Option<seq<Kind>> {
    MatchText(Some([]), s.out)
  }

  lemma Append(s: State, t: Token, out: seq<Token>)
    requires out == s.out + [t]
    ensures MatchText(Some([]), out) == Match(Opened(s), t)
  {
    MatchTextConcat(Some([]), s.out, [t]);
    assert [t][1..] == [];
  }

  // ---------------------------------------------------------------- the condition

  /** The depth at which a field lands, after moving up to its indentation. */
  function Landing(depth: nat, f: Field): nat {
    match Indent(CutName(f.name)) case Some(i) => (if depth > i / 2 then i / 2 else depth) case None => depth
  }

  /** Where the next field lands: a new message starts over. */
  function NextLanding(prev: Option<Key>, depth: nat, f: Field): nat {
    if prev != Some(f.key) then 0 else Landing(depth, f)
  }

  function NextDepth(prev: Option<Key>, depth: nat, f: Field): nat {
    NextLanding(prev, depth, f) + (if IsNested(f) then 1 else 0)
  }

  /** Whether a repeated struct is open after the field. */
  predicate NextInside(prev: Option<Key>, depth: nat, inside: bool, f: Field) {
    (prev == Some(f.key) && inside && NextLanding(prev, depth, f) > 0) || (IsNested(f) && IsRepeated(f.name))
  }

  /** A message does not end inside a repeated struct, and a repeated struct starts at the top level. */
  predicate Allowed(prev: Option<Key>, depth: nat, inside: bool, f: Field) {
    && (prev != Some(f.key) ==> !inside)
    && (IsNested(f) && IsRepeated(f.name) ==> NextLanding(prev, depth, f) == 0)
  }

  /** Read off the list alone: a repeated struct starts only at the top level of its message, and before the
      message ends another field comes back to the top level. `inside` says that a repeated struct is still open. */
  predicate SlicesAtTop(prev: Option<Key>, depth: nat, inside: bool, fs: seq<Field>)
    decreases fs
  {
    if fs == [] then !inside
    else
      && Allowed(prev, depth, inside, fs[0])
      && SlicesAtTop(Some(fs[0].key), NextDepth(prev, depth, fs[0]), NextInside(prev, depth, inside, fs[0]), fs[1..])
  }

  // ---------------------------------------------------------------- good states

  function Builds(n: nat): (r: seq<Kind>)
    ensures |r| == n
  {
    seq(n, i => Build)
  }

  /** What is open inside a message at a given depth. */
  function Expected(depth: nat, inside: bool): seq<Kind> {
    [Func, Literal] + (if inside then [SliceFunc, Loop] else []) + Builds(depth)
  }

  predicate Good(s: State) {
    && !s.panicked && Invariant(s)
    && (s.doSlice ==> s.depth > 0)
    && Opened(s) == Some(if s.prev.Some? then Expected(s.depth, s.doSlice) else [])
  }

  predicate Inside(s: State) {
    s.prev.Some? && s.doSlice
  }

  /** Something among the innermost `depth` open brackets cannot be closed as a builder. */
  predicate Jammed(open: seq<Kind>, depth: nat) {
    depth <= |open| && exists k :: |open| - depth <= k < |open| && open[k] != Build
  }

  predicate Bad(s: State) {
    || s.panicked
    || (InMessage(s) && (Opened(s) == None || Jammed(Opened(s).value, s.depth)))
  }

  lemma ExpectedPop(depth: nat, inside: bool)
    requires depth > 0
    ensures Expected(depth, inside) == Expected(depth - 1, inside) + [Build]
  {
    assert Builds(depth) == Builds(depth - 1) + [Build];
  }

  lemma GoodPopOne(s: State)
    requires Good(s) && InMessage(s) && s.depth > 0
    ensures Good(PopOne(s))
  {
    ExpectedPop(s.depth, s.doSlice);
    var e := Expected(s.depth - 1, s.doSlice);
    CloseLast(e, Build, Build);
    Append(s, BuildClose, s.out + [BuildClose]);
    if s.depth == 1 && s.doSlice {
      var s1 := s.(out := s.out + [BuildClose]);
      Append(s1, SliceClose, s1.out + [SliceClose]);
      assert s1.out + [SliceClose] == s.out + [BuildClose, SliceClose];
      assert e == Expected(0, false) + [SliceFunc] + [Loop];
      CloseLast(Expected(0, false) + [SliceFunc], Loop, Loop);
      CloseLast(Expected(0, false), SliceFunc, SliceFunc);
    }
  }

  lemma {:induction false} GoodPopTo(s: State, d: nat)
    requires Good(s) && InMessage(s)
    ensures Good(PopTo(s, d))
    ensures PopTo(s, d).doSlice == (s.doSlice && PopTo(s, d).depth > 0)
    decreases s.depth
  {
    if s.depth > d {
      GoodPopOne(s);
      GoodPopTo(PopOne(s), d);
    }
  }

  lemma {:induction false} CloseBuilds(open: seq<Kind>, n: nat)
    ensures MatchText(Some(open + Builds(n)), Repeat(n)) == Some(open)
  {
    if n == 0 {
      assert open + Builds(0) == open;
    } else {
      assert open + Builds(n) == open + Builds(n - 1) + [Build];
      CloseLast(open + Builds(n - 1), Build, Build);
      assert Repeat(n)[1..] == Repeat(n - 1) && Repeat(n)[0] == BuildClose;
      CloseBuilds(open, n - 1);
    }
  }

  /** A message that ends in a good state closes everything exactly when no repeated struct is open. */
  lemma GoodEnd(s: State)
    requires Good(s) && s.prev.Some?
    ensures MatchText(Some([]), EndMessage(s)) == if s.doSlice then None else Some([])
  {
    var base := Expected(0, s.doSlice);
    assert Expected(s.depth, s.doSlice) == base + Builds(s.depth);
    MatchTextConcat(Some([]), s.out, Repeat(s.depth));
    CloseBuilds(base, s.depth);
    var s1 := s.(out := s.out + Repeat(s.depth));
    assert Opened(s1) == Some(base);
    Append(s1, MessageClose, EndMessage(s));
    if s.doSlice {
      assert base == [Func, Literal, SliceFunc] + [Loop];
      CloseLast([Func, Literal, SliceFunc], Loop, Literal);
    } else {
      assert base == [] + [Func] + [Literal];
      CloseLast([] + [Func], Literal, Literal);
      CloseLast([], Func, Func);
    }
  }

  lemma GoodStart(s: State, key: Key)
    requires Good(s) && !(s.prev.Some? && s.doSlice)
    ensures Good(StartMessage(s, key))
  {
    if s.prev.Some? {
      GoodEnd(s);
    }
    var r := StartMessage(s, key);
    var closed := s.(out := if s.prev.Some? then EndMessage(s) else s.out);
    Append(closed, MessageOpen(TypeOf(key)), r.out);
    assert [] + [Func] + [Literal] == Expected(0, false);
    assert Opened(closed) == Some([]);
  }

  lemma EnterText(s: State, f: Field)
    requires InMessage(s)
    ensures Opened(Enter(s, f)) ==
            if IsRepeated(f.name) then Opening(Opening(Opening(Opened(s), SliceFunc), Loop), Build) else Opening(Opened(s), Build)
  {
    var r := Enter(s, f);
    var t := r.out[|s.out|];
    assert r.out == s.out + [t];
    Append(s, t, r.out);
  }

  lemma GoodEnter(s: State, f: Field)
    requires Good(s) && InMessage(s) && IsNested(f)
    requires IsRepeated(f.name) ==> s.depth == 0
    ensures Good(Enter(s, f)) && Enter(s, f).doSlice == (s.doSlice || IsRepeated(f.name))
  {
    var r := Enter(s, f);
    EnterText(s, f);
    ExpectedPop(s.depth + 1, s.doSlice);
    if IsRepeated(f.name) {
      assert Expected(0, false) + [SliceFunc] + [Loop] + [Build] == Expected(1, true);
    }
  }

  lemma GoodAssign(s: State, f: Field)
    requires Good(s) && InMessage(s)
    ensures Good(Assign(s, f)) && Assign(s, f).doSlice == s.doSlice
  {
    var r := Assign(s, f);
    Append(s, r.out[|s.out|], r.out);
  }

  // ---------------------------------------------------------------- bad states never recover

  lemma BadPopOne(s: State)
    requires Bad(s) && InMessage(s) && s.depth > 0
    ensures Bad(PopOne(s))
  {
    var s1 := s.(out := s.out + [BuildClose]);
    Append(s, BuildClose, s1.out);
    var r := PopOne(s);
    if s.depth == 1 && s.doSlice {
      Append(s1, SliceClose, s1.out + [SliceClose]);
      assert s1.out + [SliceClose] == r.out;
    }
    if Opened(s).Some? && !s.panicked {
      var open := Opened(s).value;
      var k :| |open| - s.depth <= k < |open| && open[k] != Build;
      if open[|open|-1] == Build {
        assert open[..|open|-1][k] != Build;
      }
    }
  }

  lemma {:induction false} BadPopTo(s: State, d: nat)
    requires Bad(s) && InMessage(s)
    ensures Bad(PopTo(s, d))
    decreases s.depth
  {
    if s.depth > d {
      BadPopOne(s);
      BadPopTo(PopOne(s), d);
    }
  }

  lemma {:induction false} JammedCloses(open: seq<Kind>, n: nat)
    requires Jammed(open, n)
    ensures MatchText(Some(open), Repeat(n)) == None
  {
    var k :| |open| - n <= k < |open| && open[k] != Build;
    assert Repeat(n)[1..] == Repeat(n - 1) && Repeat(n)[0] == BuildClose;
    if open[|open|-1] == Build {
      assert open[..|open|-1][k] != Build;
      JammedCloses(open[..|open|-1], n - 1);
    } else {
      MismatchStays(Repeat(n - 1));
    }
  }

  lemma BadEnd(s: State)
    requires Bad(s) && InMessage(s) && !s.panicked
    ensures MatchText(Some([]), EndMessage(s)) == None
  {
    MatchTextConcat(Some([]), s.out, Repeat(s.depth));
    if Opened(s).Some? {
      JammedCloses(Opened(s).value, s.depth);
    } else {
      MismatchStays(Repeat(s.depth));
    }
    Append(s.(out := s.out + Repeat(s.depth)), MessageClose, EndMessage(s));
  }

  lemma BadStart(s: State, key: Key)
    requires Invariant(s) && !s.panicked && s.prev.Some?
    requires MatchText(Some([]), EndMessage(s)) == None
    ensures Bad(StartMessage(s, key))
  {
    var r := StartMessage(s, key);
    Append(s.(out := EndMessage(s)), MessageOpen(TypeOf(key)), r.out);
  }

  lemma BadEnter(s: State, f: Field)
    requires InMessage(s) && IsNested(f) && !s.panicked
    requires Bad(s) || (Good(s) && IsRepeated(f.name) && s.depth > 0)
    ensures Bad(Enter(s, f))
  {
    var r := Enter(s, f);
    EnterText(s, f);
    if Opened(s).Some? {
      var open := Opened(s).value;
      if IsRepeated(f.name) {
        assert Opened(r) == Some(open + [SliceFunc] + [Loop] + [Build]);
        assert (open + [SliceFunc] + [Loop] + [Build])[|open| + 1] == Loop;
      } else {
        var k :| |open| - s.depth <= k < |open| && open[k] != Build;
        assert (open + [Build])[k] != Build;
      }
    }
  }

  lemma BadAssign(s: State, f: Field)
    requires Bad(s) && InMessage(s)
    ensures Bad(Assign(s, f))
  {
    var r := Assign(s, f);
    if !r.panicked {
      Append(s, r.out[|s.out|], r.out);
    }
  }

  lemma BadStep(s: State, f: Field)
    requires Invariant(s) && Bad(s)
    ensures Bad(Step(s, f))
  {
    if !s.panicked {
      if s.prev != Some(f.key) {
        BadEnd(s);
        BadStart(s, f.key);
      }
      var s1 := if s.prev != Some(f.key) then StartMessage(s, f.key) else s;
      if Indent(CutName(f.name)).Some? {
        BadPopTo(s1, Indent(CutName(f.name)).value / 2);
      }
      var s2 := match Indent(CutName(f.name)) case Some(i) => PopTo(s1, i / 2) case None => s1;
      if IsNested(f) { BadEnter(s2, f); } else { BadAssign(s2, f); }
    }
  }

  lemma {:induction false} BadSteps(s: State, fs: seq<Field>)
    requires Invariant(s) && Bad(s)
    ensures Bad(Steps(s, fs))
    decreases fs
  {
    if fs != [] {
      BadStep(s, fs[0]);
      BadSteps(Step(s, fs[0]), fs[1..]);
    }
  }

  // ---------------------------------------------------------------- the theorem

  /** A step from a good state stays good exactly when the field keeps to the condition. */
  lemma GoodStep(s: State, f: Field)
    requires Good(s)
    ensures if Allowed(s.prev, s.depth, Inside(s), f)
            then Good(Step(s, f)) && Step(s, f).depth == NextDepth(s.prev, s.depth, f)
                 && Inside(Step(s, f)) == NextInside(s.prev, s.depth, Inside(s), f)
            else Bad(Step(s, f))
  {
    var starts := s.prev != Some(f.key);
    if starts && s.prev.Some? && s.doSlice {
      GoodEnd(s);
      BadStart(s, f.key);
    } else if starts {
      GoodStart(s, f.key);
      assert !StartMessage(s, f.key).doSlice;
    }
    var s1 := if starts then StartMessage(s, f.key) else s;
    if Indent(CutName(f.name)).Some? {
      if Good(s1) {
        GoodPopTo(s1, Indent(CutName(f.name)).value / 2);
      } else {
        BadPopTo(s1, Indent(CutName(f.name)).value / 2);
      }
    }
    var s2 := match Indent(CutName(f.name)) case Some(i) => PopTo(s1, i / 2) case None => s1;
    if Good(s1) {
      if !IsNested(f) { GoodAssign(s2, f); }
      else if IsRepeated(f.name) && s2.depth > 0 { BadEnter(s2, f); }
      else { GoodEnter(s2, f); }
    } else {
      if IsNested(f) { BadEnter(s2, f); } else { BadAssign(s2, f); }
    }
  }

  lemma {:induction false} GoodSteps(s: State, fs: seq<Field>)
    requires Good(s)
    ensures if SlicesAtTop(s.prev, s.depth, Inside(s), fs) then Good(Steps(s, fs)) && !Inside(Steps(s, fs))
            else Bad(Steps(s, fs)) || (Good(Steps(s, fs)) && Inside(Steps(s, fs)))
    decreases fs
  {
    if fs != [] {
      GoodStep(s, fs[0]);
      if Allowed(s.prev, s.depth, Inside(s), fs[0]) {
        GoodSteps(Step(s, fs[0]), fs[1..]);
      } else {
        BadSteps(Step(s, fs[0]), fs[1..]);
      }
    }
  }

  /** For every field list: the text is written without a panic and nests properly, if and only if
      repeated structs occur only at top level and each is followed by another top-level field of its message. */
  lemma BalancedIffSlicesAtTop(fs: seq<Field>)
    ensures var r := Steps(START, fs);
            (!r.panicked && Balanced(Output(r))) <==> SlicesAtTop(None, 0, false, fs)
  {
    assert Good(START);
    GoodSteps(START, fs);
    var r := Steps(START, fs);
    if r.prev.Some? && !r.panicked {
      if Good(r) {
        GoodEnd(r);
      } else {
        BadEnd(r);
      }
    }
  }
}
