/** The handshake between Collect of serve/prometheus.go and the select loop of serve/measure.go, as a state machine. */
module Handshake {
  import opened Collections

  /** A call of Collect: not made, at the send of its channel, at the receive of the completion signal, or returned. */
  datatype Phase = Idle | Calling | Waiting | Returned

  /** The measure loop: at its select, sending a call's metrics with `left` still to send, or at the send of the signal. */
  datatype Server = Free | Serving(call: nat, left: nat) | Signalling(call: nat)

  /** `mailbox` is prometheusChan, `tokens` counts the signals in prometheusDone; both channels have capacity one.
      `due` and `delivered` count the metrics each call is to get and has got. `served` lists the calls fully served. */
  datatype State = State(
    calls: seq<Phase>, mailbox: seq<nat>, tokens: nat, server: Server,
    due: seq<nat>, delivered: seq<nat>, served: seq<nat>)

  datatype Step =
    | Call(i: nat)       // Prometheus calls Collect
    | Send(i: nat)       // its channel enters the mailbox
    | Take(count: nat)   // the loop takes a channel and measures `count` metrics
    | Deliver            // the loop sends one metric
    | Finish             // the loop has sent them all
    | Signal             // the loop sends the completion signal
    | Return(i: nat)     // a call receives a signal and returns
    | Tick               // the loop's own sample

  function Start(n: nat): State {
    State(seq(n, i => Idle), [], 0, Free, seq(n, i => 0), seq(n, i => 0), [])
  }

  predicate Enabled(s: State, step: Step) {
    match step
    case Call(i) => i < |s.calls| && s.calls[i] == Idle
    case Send(i) => i < |s.calls| && s.calls[i] == Calling && |s.mailbox| < 1
    case Take(_) => s.server == Free && s.mailbox != [] && s.mailbox[0] < |s.due|
    case Deliver => s.server.Serving? && s.server.left > 0 && s.server.call < |s.delivered|
    case Finish => s.server.Serving? && s.server.left == 0
    case Signal => s.server.Signalling? && s.tokens < 1
    case Return(i) => i < |s.calls| && s.calls[i] == Waiting && s.tokens > 0
    case Tick => s.server == Free
  }

  function After(s: State, step: Step): State
    requires Enabled(s, step)
  {
    match step
    case Call(i) => s.(calls := s.calls[i := Calling])
    case Send(i) => s.(calls := s.calls[i := Waiting], mailbox := s.mailbox + [i])
    case Take(count) => s.(server := Serving(s.mailbox[0], count), mailbox := s.mailbox[1..], due := s.due[s.mailbox[0] := count])
    case Deliver =>
      var i := s.server.call;
      s.(server := Serving(i, s.server.left - 1), delivered := s.delivered[i := s.delivered[i] + 1])
    case Finish => s.(server := Signalling(s.server.call), served := s.served + [s.server.call])
    case Signal => s.(server := Free, tokens := s.tokens + 1)
    case Return(i) => s.(calls := s.calls[i := Returned], tokens := s.tokens - 1)
    case Tick => s
  }

  // ---------------------------------------------------------------- the invariant

  function Count(s: State, p: Phase): nat {
    multiset(s.calls)[p]
  }

  function InService(s: State): seq<nat> {
    if s.server.Serving? then [s.server.call] else []
  }

  /** The calls whose channel has entered the mailbox, in that order. */
  function Accepted(s: State): seq<nat> {
    s.served + InService(s) + s.mailbox
  }

  predicate Entered(p: Phase) {
    p == Waiting || p == Returned
  }

  /** The accepted calls are exactly those past their send, each accepted once. */
  ghost predicate Bookkeeping(s: State) {
    && |s.due| == |s.calls| && |s.delivered| == |s.calls|
    && Distinct(Accepted(s))
    && (forall k :: 0 <= k < |Accepted(s)| ==> Accepted(s)[k] < |s.calls| && Entered(s.calls[Accepted(s)[k]]))
    && (forall i :: 0 <= i < |s.calls| && Entered(s.calls[i]) ==> i in Accepted(s))
  }

  /** Signals are conserved: each full service makes one, and each return uses one up. */
  ghost predicate Tokens(s: State) {
    && Count(s, Returned) + s.tokens + (if s.server.Signalling? then 1 else 0) == |s.served|
    && Count(s, Waiting) == s.tokens + (if s.server.Free? then 0 else 1) + |s.mailbox|
    && |s.mailbox| <= 1 && s.tokens <= 1
  }

  ghost predicate Deliveries(s: State) {
    && |s.due| == |s.calls| && |s.delivered| == |s.calls|
    && (forall k :: 0 <= k < |s.served| ==> s.served[k] < |s.calls| && s.delivered[s.served[k]] == s.due[s.served[k]])
    && (s.server.Serving? ==> s.server.call < |s.calls| && s.delivered[s.server.call] + s.server.left == s.due[s.server.call])
    && (forall i :: 0 <= i < |s.calls| && i !in s.served && i !in InService(s) ==> s.delivered[i] == 0)
  }

  ghost predicate Inv(s: State) {
    Bookkeeping(s) && Tokens(s) && Deliveries(s)
  }

  lemma StartInv(n: nat)
    ensures Inv(Start(n))
  {
    forall p | p != Idle ensures Count(Start(n), p) == 0 {
      assert p !in Start(n).calls;
    }
  }

  lemma CallsCount(calls: seq<Phase>, i: nat, p: Phase, q: Phase)
    requires i < |calls|
    ensures multiset(calls[i := p])[q] == multiset(calls)[q] - (if calls[i] == q then 1 else 0) + if p == q then 1 else 0
  {
  }

  lemma CallMoves(s: State, step: Step, i: nat, p: Phase)
    requires Enabled(s, step) && i < |s.calls| && After(s, step).calls == s.calls[i := p]
    ensures forall q :: Count(After(s, step), q) == Count(s, q) - (if s.calls[i] == q then 1 else 0) + if p == q then 1 else 0
  {
    forall q {
      CallsCount(s.calls, i, p, q);
    }
  }

  lemma TokensKept(s: State, step: Step)
    requires Inv(s) && Enabled(s, step)
    ensures Tokens(After(s, step))
  {
    match step
    case Call(i) => CallMoves(s, step, i, Calling);
    case Send(i) => CallMoves(s, step, i, Waiting);
    case Return(i) => CallMoves(s, step, i, Returned);
    case Take(_) => LoopTokens(s, step);
    case Deliver => LoopTokens(s, step);
    case Finish => LoopTokens(s, step);
    case Signal => LoopTokens(s, step);
    case Tick => LoopTokens(s, step);
  }

  lemma LoopTokens(s: State, step: Step)
    requires Tokens(s) && Enabled(s, step) && After(s, step).calls == s.calls
    ensures Tokens(After(s, step))
  {
  }

  lemma SendBooks(s: State, i: nat)
    requires Inv(s) && Enabled(s, Send(i))
    ensures Bookkeeping(After(s, Send(i)))
  {
    var t := After(s, Send(i));
    assert Accepted(t) == Accepted(s) + [i];
    forall k | 0 <= k < |Accepted(s)| ensures Accepted(s)[k] != i {
      assert Entered(s.calls[Accepted(s)[k]]);
    }
    forall j | 0 <= j < |t.calls| && Entered(t.calls[j]) ensures j in Accepted(t) {
      if j != i {
        assert Entered(s.calls[j]);
      }
    }
  }

  lemma AcceptedKept(s: State, step: Step)
    requires Enabled(s, step) && !step.Send?
    ensures Accepted(After(s, step)) == Accepted(s)
  {
  }

  lemma EnteredKept(s: State, step: Step)
    requires Enabled(s, step) && !step.Send?
    ensures var t := After(s, step);
            |t.calls| == |s.calls| && forall i :: 0 <= i < |s.calls| ==> Entered(t.calls[i]) == Entered(s.calls[i])
  {
  }

  lemma SameBooks(s: State, t: State)
    requires Bookkeeping(s) && Accepted(t) == Accepted(s) && |t.calls| == |s.calls| == |t.due| == |t.delivered|
    requires forall i :: 0 <= i < |s.calls| ==> Entered(t.calls[i]) == Entered(s.calls[i])
    ensures Bookkeeping(t)
  {
  }

  lemma BooksKept(s: State, step: Step)
    requires Inv(s) && Enabled(s, step)
    ensures Bookkeeping(After(s, step))
  {
    if step.Send? {
      SendBooks(s, step.i);
    } else {
      AcceptedKept(s, step);
      EnteredKept(s, step);
      SameBooks(s, After(s, step));
    }
  }

  lemma DeliveriesKept(s: State, step: Step)
    requires Inv(s) && Enabled(s, step)
    ensures Deliveries(After(s, step))
  {
    var t := After(s, step);
    match step
    case Take(count) =>
      var i := s.mailbox[0];
      var a := Accepted(s);
      assert a[|s.served|] == i;
      forall k | 0 <= k < |s.served| ensures s.served[k] != i {
        assert a[k] == s.served[k];
      }
      assert InService(t) == [i];
    case Deliver =>
      var i := s.server.call;
      var a := Accepted(s);
      assert a[|s.served|] == i;
      forall k | 0 <= k < |s.served| ensures s.served[k] != i {
        assert a[k] == s.served[k];
      }
    case Finish =>
      assert t.served == s.served + InService(s);
    case Call(_) =>
    case Send(_) =>
    case Signal =>
    case Return(_) =>
    case Tick =>
  }

  // ---------------------------------------------------------------- runs

  ghost predicate Next(s: State, t: State) {
    exists step :: Enabled(s, step) && t == After(s, step)
  }

  ghost predicate StepAt(run: seq<State>, k: nat) {
    k + 1 < |run| && Next(run[k], run[k+1])
  }

  ghost predicate IsRun(run: seq<State>, n: nat) {
    run != [] && run[0] == Start(n) && forall k: nat :: k + 1 < |run| ==> StepAt(run, k)
  }

  lemma {:induction false} RunInv(run: seq<State>, n: nat, k: nat)
    requires IsRun(run, n) && k < |run|
    ensures Inv(run[k]) && |run[k].calls| == n
  {
    if k == 0 {
      StartInv(n);
    } else {
      RunInv(run, n, k - 1);
      var s := run[k-1];
      assert StepAt(run, k - 1);
      var step :| Enabled(s, step) && run[k] == After(s, step);
      TokensKept(s, step);
      BooksKept(s, step);
      DeliveriesKept(s, step);
    }
  }

  ghost predicate EndsIn(run: seq<State>, n: nat, s: State) {
    IsRun(run, n) && run[|run|-1] == s
  }

  /** Some run of `n` calls leads to the state. */
  ghost predicate Reachable(s: State, n: nat) {
    exists run :: EndsIn(run, n, s)
  }

  lemma ReachableInv(s: State, n: nat)
    requires Reachable(s, n)
    ensures Inv(s) && |s.calls| == n
  {
    var run :| EndsIn(run, n, s);
    RunInv(run, n, |run| - 1);
  }

  lemma ReachableStart(n: nat)
    ensures Reachable(Start(n), n)
  {
    assert EndsIn([Start(n)], n, Start(n));
  }

  lemma ReachableAfter(s: State, n: nat, step: Step)
    requires Reachable(s, n) && Enabled(s, step)
    ensures Reachable(After(s, step), n)
  {
    var run :| EndsIn(run, n, s);
    var longer := run + [After(s, step)];
    forall k: nat | k + 1 < |longer| ensures StepAt(longer, k) {
      if k + 1 < |run| {
        assert StepAt(run, k);
      } else {
        assert Next(longer[k], longer[k+1]);
      }
    }
    assert EndsIn(longer, n, After(s, step));
  }

  // ---------------------------------------------------------------- what a return promises

  /** However many calls overlap, those that have returned never outnumber those served, and none is served twice. */
  lemma ReturnedAtMostServed(s: State, n: nat)
    requires Reachable(s, n)
    ensures Count(s, Returned) <= |s.served| <= Count(s, Returned) + Count(s, Waiting)
    ensures Distinct(s.served)
  {
    ReachableInv(s, n);
    forall i, j | 0 <= i < j < |s.served| ensures s.served[i] != s.served[j] {
      assert s.served[i] == Accepted(s)[i] && s.served[j] == Accepted(s)[j];
    }
  }

  /** The call's channel has been through the loop and got every metric due. */
  predicate ServedInFull(s: State, i: nat) {
    i in s.served && i < |s.due| && i < |s.delivered| && s.delivered[i] == s.due[i]
  }

  /** Which call a signal wakes is up to the scheduler; one about to return has had all its metrics exactly when its
      channel is no longer in the loop's hands or in the mailbox. */
  lemma WokenUnserved(s: State, n: nat, i: nat)
    requires Reachable(s, n) && Enabled(s, Return(i))
    ensures ServedInFull(s, i) <==> i !in InService(s) && i !in s.mailbox
  {
    ReachableInv(s, n);
    assert Entered(s.calls[i]);
    assert i in Accepted(s);
    if i in s.served {
      ServedOnly(s, i);
    }
  }

  lemma ServedOnly(s: State, i: nat)
    requires Distinct(Accepted(s)) && i in s.served
    ensures i !in InService(s) && i !in s.mailbox
  {
    var a := Accepted(s);
    var p :| 0 <= p < |s.served| && s.served[p] == i;
    assert a[p] == i;
    forall q | 0 <= q < |InService(s)| ensures InService(s)[q] != i {
      assert a[|s.served| + q] == InService(s)[q];
    }
    forall q | 0 <= q < |s.mailbox| ensures s.mailbox[q] != i {
      assert a[|s.served| + |InService(s)| + q] == s.mailbox[q];
    }
  }

  /** A call that returns while no other waits has been served in full. */
  lemma LoneCallServed(s: State, n: nat, i: nat)
    requires Reachable(s, n) && Enabled(s, Return(i)) && Count(s, Waiting) == 1
    ensures ServedInFull(s, i)
  {
    ReachableInv(s, n);
    WokenUnserved(s, n, i);
  }

  ghost predicate InFlight(p: Phase) {
    p == Calling || p == Waiting
  }

  /** At most one call of the state is in flight. */
  ghost predicate OneAtATime(s: State) {
    forall i, j :: 0 <= i < |s.calls| && 0 <= j < |s.calls| && InFlight(s.calls[i]) && InFlight(s.calls[j]) ==> i == j
  }

  lemma OneWaiting(s: State, i: nat)
    requires i < |s.calls| && s.calls[i] == Waiting && OneAtATime(s)
    ensures Count(s, Waiting) == 1
  {
    assert s.calls == s.calls[..i] + [Waiting] + s.calls[i+1..];
    assert Waiting !in s.calls[..i] && Waiting !in s.calls[i+1..];
  }

  /** Every call that has returned was served in full. */
  ghost predicate ReturnedAreServed(s: State) {
    forall i :: 0 <= i < |s.calls| && s.calls[i] == Returned ==> ServedInFull(s, i)
  }

  lemma StaysServed(s: State, step: Step, i: nat)
    requires Inv(s) && Enabled(s, step) && ServedInFull(s, i)
    ensures ServedInFull(After(s, step), i)
  {
    DeliveriesKept(s, step);
    var t := After(s, step);
    var k :| 0 <= k < |s.served| && s.served[k] == i;
    assert t.served[k] == i;
  }

  lemma OneAtATimeStep(s: State, n: nat, step: Step)
    requires Reachable(s, n) && Enabled(s, step) && OneAtATime(s) && ReturnedAreServed(s)
    ensures ReturnedAreServed(After(s, step))
  {
    ReachableInv(s, n);
    var t := After(s, step);
    forall i | 0 <= i < |t.calls| && t.calls[i] == Returned ensures ServedInFull(t, i) {
      if s.calls[i] != Returned {
        OneWaiting(s, i);
        LoneCallServed(s, n, i);
      }
      StaysServed(s, step, i);
    }
  }

  /** If Prometheus never overlaps two calls, each call that has returned was served in full. */
  lemma {:induction false} OneAtATimeIsServed(run: seq<State>, n: nat, k: nat)
    requires IsRun(run, n) && k < |run|
    requires forall j :: 0 <= j <= k ==> OneAtATime(run[j])
    ensures Reachable(run[k], n) && ReturnedAreServed(run[k])
  {
    if k == 0 {
      ReachableStart(n);
    } else {
      OneAtATimeIsServed(run, n, k - 1);
      assert StepAt(run, k - 1);
      var step :| Enabled(run[k-1], step) && run[k] == After(run[k-1], step);
      OneAtATimeStep(run[k-1], n, step);
      ReachableAfter(run[k-1], n, step);
    }
  }

  /** Two calls overlap; the first has been sent its one metric. */
  lemma TwoWaiting() returns (s: State)
    ensures Reachable(s, 2) && s == State([Waiting, Waiting], [1], 0, Serving(0, 0), [1, 0], [1, 0], [])
  {
    ReachableStart(2);
    s := Start(2);
    assert s == State([Idle, Idle], [], 0, Free, [0, 0], [0, 0], []);
    s := Play(s, Call(0), State([Calling, Idle], [], 0, Free, [0, 0], [0, 0], []));
    s := Play(s, Send(0), State([Waiting, Idle], [0], 0, Free, [0, 0], [0, 0], []));
    s := Play(s, Take(1), State([Waiting, Idle], [], 0, Serving(0, 1), [1, 0], [0, 0], []));
    s := Play(s, Deliver, State([Waiting, Idle], [], 0, Serving(0, 0), [1, 0], [1, 0], []));
    s := Play(s, Call(1), State([Waiting, Calling], [], 0, Serving(0, 0), [1, 0], [1, 0], []));
    s := Play(s, Send(1), State([Waiting, Waiting], [1], 0, Serving(0, 0), [1, 0], [1, 0], []));
  }

  /** With two calls overlapping, one can return before any of its metrics are sent: the signal meant for the first
      wakes the second, whose metric the loop then has nobody to send to. */
  lemma OverlapReturnsUnserved() returns (s: State)
    ensures Reachable(s, 2) && s.calls == [Waiting, Returned] && s.server == Serving(1, 1)
    ensures |s.due| == |s.delivered| == 2 && s.delivered[1] < s.due[1]
  {
    s := TwoWaiting();
    s := Play(s, Finish, State([Waiting, Waiting], [1], 0, Signalling(0), [1, 0], [1, 0], [0]));
    s := Play(s, Signal, State([Waiting, Waiting], [1], 1, Free, [1, 0], [1, 0], [0]));
    s := Play(s, Return(1), State([Waiting, Returned], [1], 0, Free, [1, 0], [1, 0], [0]));
    s := Play(s, Take(1), State([Waiting, Returned], [], 0, Serving(1, 1), [1, 1], [1, 0], [0]));
  }

  lemma Play(s: State, step: Step, t: State) returns (u: State)
    requires Reachable(s, 2) && Enabled(s, step) && After(s, step) == t
    ensures u == t && Reachable(u, 2)
  {
    ReachableAfter(s, 2, step);
    u := t;
  }

  // ---------------------------------------------------------------- progress

  /** While a call is in flight, some step other than a new call or the loop's own sample can be taken. */
  lemma NoDeadlock(s: State, n: nat, i: nat) returns (step: Step)
    requires Reachable(s, n) && i < |s.calls| && InFlight(s.calls[i])
    ensures Enabled(s, step) && !step.Call? && !step.Tick?
  {
    ReachableInv(s, n);
    if s.tokens > 0 {
      assert Count(s, Waiting) > 0;
      var j :| 0 <= j < |s.calls| && s.calls[j] == Waiting;
      step := Return(j);
    } else if s.server.Signalling? {
      step := Signal;
    } else if s.server.Serving? {
      step := if s.server.left > 0 then Deliver else Finish;
    } else if s.mailbox != [] {
      assert s.mailbox[0] == Accepted(s)[|s.served|];
      step := Take(0);
    } else {
      assert Count(s, Waiting) == 0;
      assert s.calls[i] == Calling;
      step := Send(i);
    }
  }

  function ServerWork(v: Server): nat {
    match v case Free => 0 case Serving(_, _) => 2 case Signalling(_) => 1
  }

  /** The steps still to be taken, apart from metrics and samples. */
  function StepsLeft(s: State): nat {
    6 * Count(s, Idle) + 5 * Count(s, Calling) + Count(s, Waiting) + 3 * |s.mailbox| + ServerWork(s.server)
  }

  function MetricsLeft(s: State): nat {
    if s.server.Serving? then s.server.left else 0
  }

  /** Every step but a sample uses up a budget fixed at the start, or sends a metric of the service under way: so every
      call returns, if the steps that can be taken are. */
  lemma StepsDecrease(s: State, step: Step)
    requires Enabled(s, step) && !step.Tick?
    ensures StepsLeft(After(s, step)) < StepsLeft(s)
      || (StepsLeft(After(s, step)) == StepsLeft(s) && MetricsLeft(After(s, step)) < MetricsLeft(s))
  {
  }
}
