/** The fan-out and fan-in of message/gather.go, as a state machine over the steps of its goroutines. */
module Gather {
  import opened Collections

  /** A request's goroutine: running the request, at the select with the response in hand, past the select, or finished. */
  datatype Phase = Running | Ready | Past | Done

  /** `buffer` holds the responses in the channel, and `received` those taken from it, each by its request's number. */
  datatype State = State(workers: seq<Phase>, buffer: seq<nat>, closed: bool, expired: bool, received: seq<nat>, returned: bool)

  datatype Step =
    | Finish(i: nat)  // the request returns its response
    | Send(i: nat)    // the select sends it
    | Skip(i: nat)    // the select sees the context done
    | Leave(i: nat)   // the deferred Done of the wait group
    | Expire          // the timeout
    | Close           // the goroutine that waits for the group closes the channel
    | Receive         // the range takes a response
    | Return          // the range ends

  function Start(n: nat): State {
    State(seq(n, i => Running), [], false, false, [], false)
  }

  predicate AllDone(s: State) {
    forall i :: 0 <= i < |s.workers| ==> s.workers[i] == Done
  }

  /** When a step can be taken. A send on the closed channel is a panic, and on the full one blocks: neither is here. */
  predicate Enabled(s: State, timeout: bool, step: Step) {
    match step
    case Finish(i) => i < |s.workers| && s.workers[i] == Running
    case Send(i) => i < |s.workers| && s.workers[i] == Ready && !s.closed && |s.buffer| < |s.workers|
    case Skip(i) => i < |s.workers| && s.workers[i] == Ready && s.expired
    case Leave(i) => i < |s.workers| && s.workers[i] == Past
    case Expire => timeout && !s.expired
    case Close => AllDone(s) && !s.closed
    case Receive => s.buffer != [] && !s.returned
    case Return => s.closed && s.buffer == [] && !s.returned
  }

  function After(s: State, timeout: bool, step: Step): State
    requires Enabled(s, timeout, step)
  {
    match step
    case Finish(i) => s.(workers := s.workers[i := Ready])
    case Send(i) => s.(workers := s.workers[i := Past], buffer := s.buffer + [i])
    case Skip(i) => s.(workers := s.workers[i := Past])
    case Leave(i) => s.(workers := s.workers[i := Done])
    case Expire => s.(expired := true)
    case Close => s.(closed := true)
    case Receive => s.(received := s.received + [s.buffer[0]], buffer := s.buffer[1..])
    case Return => s.(returned := true)
  }

  predicate IsPast(p: Phase) {
    p == Past || p == Done
  }

  /** All responses sent so far, in the order they were sent. */
  function Sent(s: State): seq<nat> {
    s.received + s.buffer
  }

  /** Holds in every reachable state. */
  ghost predicate Inv(s: State, timeout: bool) {
    && Distinct(Sent(s))
    && (forall k :: 0 <= k < |Sent(s)| ==> Sent(s)[k] < |s.workers| && IsPast(s.workers[Sent(s)[k]]))
    && (s.closed ==> AllDone(s))
    && (s.returned ==> s.closed && s.buffer == [])
    && (s.expired ==> timeout)
    && (!s.expired ==> forall i :: 0 <= i < |s.workers| && IsPast(s.workers[i]) ==> exists k :: 0 <= k < |Sent(s)| && Sent(s)[k] == i)
  }

  lemma StartInv(n: nat, timeout: bool)
    ensures Inv(Start(n), timeout)
  {
  }

  lemma SendKeeps(s: State, timeout: bool, i: nat)
    requires Inv(s, timeout) && Enabled(s, timeout, Send(i))
    ensures Inv(After(s, timeout, Send(i)), timeout)
  {
    var t := After(s, timeout, Send(i));
    assert Sent(t) == Sent(s) + [i];
    forall k | 0 <= k < |Sent(s)| ensures Sent(s)[k] != i {
      assert IsPast(s.workers[Sent(s)[k]]);
    }
    if !t.expired {
      forall j | 0 <= j < |t.workers| && IsPast(t.workers[j])
        ensures exists k :: 0 <= k < |Sent(t)| && Sent(t)[k] == j
      {
        if j == i {
          assert Sent(t)[|Sent(s)|] == j;
        } else {
          assert IsPast(s.workers[j]);
          var k :| 0 <= k < |Sent(s)| && Sent(s)[k] == j;
          assert Sent(t)[k] == j;
        }
      }
    }
  }

  /** A step that sends nothing and lets no goroutine past its select unsent keeps the invariant. */
  lemma OthersKeep(s: State, t: State, timeout: bool)
    requires Inv(s, timeout) && Sent(t) == Sent(s) && |t.workers| == |s.workers|
    requires forall i :: 0 <= i < |s.workers| && IsPast(s.workers[i]) ==> IsPast(t.workers[i])
    requires !t.expired ==> !s.expired && forall i :: 0 <= i < |t.workers| && IsPast(t.workers[i]) ==> IsPast(s.workers[i])
    requires t.closed ==> AllDone(t)
    requires t.returned ==> t.closed && t.buffer == []
    requires t.expired ==> timeout
    ensures Inv(t, timeout)
  {
  }

  lemma WorkerKeeps(s: State, timeout: bool, step: Step)
    requires Inv(s, timeout) && Enabled(s, timeout, step) && (step.Finish? || step.Skip? || step.Leave?)
    ensures Inv(After(s, timeout, step), timeout)
  {
    OthersKeep(s, After(s, timeout, step), timeout);
  }

  lemma StepKeeps(s: State, timeout: bool, step: Step)
    requires Inv(s, timeout) && Enabled(s, timeout, step)
    ensures Inv(After(s, timeout, step), timeout)
  {
    match step
    case Send(i) => SendKeeps(s, timeout, i);
    case Receive => assert Sent(After(s, timeout, step)) == Sent(s);
    case Finish(_) => WorkerKeeps(s, timeout, step);
    case Skip(_) => WorkerKeeps(s, timeout, step);
    case Leave(_) => WorkerKeeps(s, timeout, step);
    case Expire => OthersKeep(s, After(s, timeout, step), timeout);
    case Close => OthersKeep(s, After(s, timeout, step), timeout);
    case Return => OthersKeep(s, After(s, timeout, step), timeout);
  }

  // ---------------------------------------------------------------- runs

  ghost predicate Next(s: State, timeout: bool, t: State) {
    exists step :: Enabled(s, timeout, step) && t == After(s, timeout, step)
  }

  ghost predicate StepAt(run: seq<State>, timeout: bool, k: nat) {
    k + 1 < |run| && Next(run[k], timeout, run[k+1])
  }

  /** A run from the start; one step leads from each state to the next. */
  ghost predicate IsRun(run: seq<State>, n: nat, timeout: bool) {
    run != [] && run[0] == Start(n) && forall k: nat :: k + 1 < |run| ==> StepAt(run, timeout, k)
  }

  ghost predicate EndsIn(run: seq<State>, n: nat, timeout: bool, s: State) {
    IsRun(run, n, timeout) && run[|run|-1] == s
  }

  /** Some interleaving of `n` requests leads to the state. */
  ghost predicate Reachable(s: State, n: nat, timeout: bool) {
    exists run :: EndsIn(run, n, timeout, s)
  }

  lemma {:induction false} RunInv(run: seq<State>, n: nat, timeout: bool, k: nat)
    requires IsRun(run, n, timeout) && k < |run|
    ensures Inv(run[k], timeout) && |run[k].workers| == n
  {
    if k == 0 {
      StartInv(n, timeout);
    } else {
      RunInv(run, n, timeout, k - 1);
      assert StepAt(run, timeout, k - 1);
      var step :| Enabled(run[k-1], timeout, step) && run[k] == After(run[k-1], timeout, step);
      StepKeeps(run[k-1], timeout, step);
    }
  }

  lemma ReachableInv(s: State, n: nat, timeout: bool)
    requires Reachable(s, n, timeout)
    ensures Inv(s, timeout) && |s.workers| == n
  {
    var run :| EndsIn(run, n, timeout, s);
    RunInv(run, n, timeout, |run| - 1);
  }

  function Without(s: seq<nat>, k: nat): seq<nat>
    requires k < |s|
  {
    s[..k] + s[k+1..]
  }

  /** Removing `n - 1` from distinct numbers below `n` leaves distinct numbers below `n - 1`, and no fewer of them. */
  lemma Removed(s: seq<nat>, k: nat, n: nat)
    requires Distinct(s) && k < |s| && s[k] == n - 1 && forall j :: 0 <= j < |s| ==> s[j] < n
    ensures Distinct(Without(s, k)) && forall j :: 0 <= j < |Without(s, k)| ==> Without(s, k)[j] < n - 1
    ensures forall i: nat :: i in s && i < n - 1 ==> i in Without(s, k)
  {
    var t := Without(s, k);
    forall a, b | 0 <= a < b < |t| ensures t[a] != t[b] {
      var a', b' := if a < k then a else a + 1, if b < k then b else b + 1;
      assert s[a'] != s[b'];
    }
    forall a | 0 <= a < |t| ensures t[a] < n - 1 {
      var a' := if a < k then a else a + 1;
      assert a' < k ==> s[a'] != s[k];
      assert k < a' ==> s[k] != s[a'];
    }
    forall i: nat | i in s && i < n - 1 ensures i in t {
      var j :| 0 <= j < |s| && s[j] == i;
      if j < k {
        assert t[j] == i;
      } else {
        assert t[j-1] == i;
      }
    }
  }

  lemma {:induction false} DistinctBelow(s: seq<nat>, n: nat)
    requires Distinct(s) && forall k :: 0 <= k < |s| ==> s[k] < n
    ensures |s| <= n
  {
    if s != [] {
      assert s[0] < n;
      if k :| 0 <= k < |s| && s[k] == n - 1 {
        Removed(s, k, n);
        DistinctBelow(Without(s, k), n - 1);
      } else {
        DistinctBelow(s, n - 1);
      }
    }
  }

  /** Distinct numbers below `n`, other than `i`, are fewer than `n`. */
  lemma FewerThan(s: seq<nat>, n: nat, i: nat)
    requires Distinct(s) && i < n && forall k :: 0 <= k < |s| ==> s[k] < n && s[k] != i
    ensures |s| < n
  {
    var t := s + [i];
    DistinctBelow(t, n);
  }

  /** In every interleaving, a goroutine with a response can send it: the channel is open and has room. */
  lemma SendNeverBlocks(s: State, n: nat, timeout: bool, i: nat)
    requires Reachable(s, n, timeout) && i < |s.workers| && s.workers[i] == Ready
    ensures Enabled(s, timeout, Send(i))
  {
    ReachableInv(s, n, timeout);
    forall j | 0 <= j < |Sent(s)| ensures Sent(s)[j] != i {
      assert IsPast(s.workers[Sent(s)[j]]);
    }
    FewerThan(Sent(s), n, i);
  }

  /** The responses of the requests numbered by `received`, appended in order. */
  function Result<T>(responses: seq<seq<T>>, received: seq<nat>): seq<T>
    requires forall k :: 0 <= k < |received| ==> received[k] < |responses|
  {
    if received == [] then []
    else Result(responses, received[..|received|-1]) + responses[received[|received|-1]]
  }

  /** The responses of all requests, in the order of the requests. */
  function Everything<T>(responses: seq<seq<T>>): seq<T> {
    if responses == [] then []
    else Everything(responses[..|responses|-1]) + responses[|responses|-1]
  }

  /** All the responses of the requests numbered by `s`, in any order. */
  ghost function Bag<T>(responses: seq<seq<T>>, s: seq<nat>): multiset<T> {
    if s == [] then multiset{}
    else
      var i := s[|s|-1];
      Bag(responses, s[..|s|-1]) + if i < |responses| then multiset(responses[i]) else multiset{}
  }

  lemma {:induction false} ResultBag<T>(responses: seq<seq<T>>, s: seq<nat>)
    requires forall j :: 0 <= j < |s| ==> s[j] < |responses|
    ensures multiset(Result(responses, s)) == Bag(responses, s)
  {
    if s != [] {
      ResultBag(responses, s[..|s|-1]);
    }
  }

  lemma BagMore<T>(responses: seq<seq<T>>, s: seq<nat>, i: nat)
    ensures Bag(responses, s + [i]) == Bag(responses, s) + if i < |responses| then multiset(responses[i]) else multiset{}
  {
    assert (s + [i])[..|s|] == s;
  }

  lemma WithoutFront(s: seq<nat>, i: nat, k: nat)
    requires k < |s|
    ensures Without(s + [i], k) == Without(s, k) + [i]
  {
  }

  lemma {:induction false} RemoveOne<T>(responses: seq<seq<T>>, s: seq<nat>, k: nat)
    requires k < |s| && s[k] < |responses|
    ensures Bag(responses, s) == Bag(responses, Without(s, k)) + multiset(responses[s[k]])
  {
    var front, last := s[..|s|-1], s[|s|-1];
    assert s == front + [last];
    BagMore(responses, front, last);
    if k == |front| {
      assert Without(s, k) == front;
    } else {
      RemoveOne(responses, front, k);
      WithoutFront(front, last, k);
      BagMore(responses, Without(front, k), last);
    }
  }

  lemma {:induction false} FewerResponses<T>(responses: seq<seq<T>>, s: seq<nat>)
    requires responses != [] && forall j :: 0 <= j < |s| ==> s[j] < |responses| - 1
    ensures Bag(responses[..|responses|-1], s) == Bag(responses, s)
  {
    if s != [] {
      FewerResponses(responses, s[..|s|-1]);
    }
  }

  lemma {:induction false} ResultIsEverything<T>(responses: seq<seq<T>>, s: seq<nat>)
    requires Distinct(s) && forall j :: 0 <= j < |s| ==> s[j] < |responses|
    requires forall i :: 0 <= i < |responses| ==> i in s
    ensures Bag(responses, s) == multiset(Everything(responses))
  {
    var n := |responses|;
    if n == 0 {
      DistinctBelow(s, n);
    } else {
      var k := IndexOf(s, n - 1);
      RemoveOne(responses, s, k);
      Removed(s, k, n);
      FewerResponses(responses, Without(s, k));
      ResultIsEverything(responses[..n-1], Without(s, k));
    }
  }

  lemma IndexOf(s: seq<nat>, x: nat) returns (k: nat)
    requires x in s
    ensures k < |s| && s[k] == x
  {
    k :| 0 <= k < |s| && s[k] == x;
  }

  /** Gather returns only after every request has finished, even past the timeout; what it returns comes from
      distinct requests, and without a timeout from all. */
  lemma ReturnsAll(s: State, n: nat, timeout: bool)
    requires Reachable(s, n, timeout) && s.returned
    ensures AllDone(s)
    ensures Distinct(s.received) && forall j :: 0 <= j < |s.received| ==> s.received[j] < n
    ensures !timeout ==> forall i :: 0 <= i < n ==> i in s.received
  {
    ReachableInv(s, n, timeout);
    assert Sent(s) == s.received;
    if !timeout {
      forall i | 0 <= i < n ensures i in s.received {
        assert IsPast(s.workers[i]);
      }
    }
  }

  /** Without a timeout, what Gather returns is a permutation of all the responses. */
  lemma ReturnsEverything<T>(s: State, n: nat, responses: seq<seq<T>>)
    requires Reachable(s, n, false) && s.returned && |responses| == n
    ensures forall j :: 0 <= j < |s.received| ==> s.received[j] < n
    ensures multiset(Result(responses, s.received)) == multiset(Everything(responses))
  {
    ReturnsAll(s, n, false);
    ResultIsEverything(responses, s.received);
    ResultBag(responses, s.received);
  }

  /** One request, past the timeout: nothing can happen before it answers. */
  lemma WaitsPastTimeout() returns (s: State)
    ensures Reachable(s, 1, true) && s.expired && forall step :: Enabled(s, true, step) ==> step == Finish(0)
  {
    s := After(Start(1), true, Expire);
    var run := [Start(1), s];
    assert Next(run[0], true, run[1]);
    assert StepAt(run, true, 0);
    assert EndsIn(run, 1, true, s);
    assert s.workers[0] == Running;
  }

  /** No reachable state is stuck before Gather returns. */
  lemma NoDeadlock(s: State, n: nat, timeout: bool) returns (step: Step)
    requires Reachable(s, n, timeout) && !s.returned
    ensures step != Expire && Enabled(s, timeout, step)
  {
    if s.buffer != [] {
      step := Receive;
    } else if AllDone(s) {
      step := if s.closed then Return else Close;
    } else {
      var i :| 0 <= i < |s.workers| && s.workers[i] != Done;
      match s.workers[i]
      case Running => step := Finish(i);
      case Ready =>
        SendNeverBlocks(s, n, timeout, i);
        step := Send(i);
      case Past => step := Leave(i);
    }
  }

  // ---------------------------------------------------------------- every run ends

  function Weight(p: Phase): nat {
    match p case Running => 6 case Ready => 4 case Past => 2 case Done => 0
  }

  function TotalWeight(ws: seq<Phase>): nat {
    if ws == [] then 0 else TotalWeight(ws[..|ws|-1]) + Weight(ws[|ws|-1])
  }

  lemma {:induction false} WeightChange(ws: seq<Phase>, i: nat, p: Phase)
    requires i < |ws|
    ensures TotalWeight(ws[i := p]) == TotalWeight(ws) - Weight(ws[i]) + Weight(p)
  {
    if i < |ws| - 1 {
      assert ws[i := p][..|ws|-1] == ws[..|ws|-1][i := p];
      WeightChange(ws[..|ws|-1], i, p);
    } else {
      assert ws[i := p][..|ws|-1] == ws[..|ws|-1];
    }
  }

  function StepsLeft(s: State): nat {
    TotalWeight(s.workers) + |s.buffer| + (if s.closed then 0 else 1) + (if s.expired then 0 else 1) + (if s.returned then 0 else 1)
  }

  /** Every step uses up some of a budget fixed at the start, so no run goes on forever. */
  lemma StepsDecrease(s: State, timeout: bool, step: Step)
    requires Enabled(s, timeout, step)
    ensures StepsLeft(After(s, timeout, step)) < StepsLeft(s)
  {
    match step
    case Finish(i) => WeightChange(s.workers, i, Ready);
    case Send(i) => WeightChange(s.workers, i, Past);
    case Skip(i) => WeightChange(s.workers, i, Past);
    case Leave(i) => WeightChange(s.workers, i, Done);
    case _ =>
  }

  lemma {:induction false} StartBudget(n: nat)
    ensures StepsLeft(Start(n)) == 6 * n + 3
  {
    if n > 0 {
      assert Start(n).workers[..n-1] == Start(n-1).workers;
      StartBudget(n - 1);
    }
  }

  /** A run of `n` requests has at most 6n + 3 steps. */
  lemma {:induction false} RunLength(run: seq<State>, n: nat, timeout: bool, k: nat)
    requires IsRun(run, n, timeout) && k < |run|
    ensures StepsLeft(run[k]) + k <= 6 * n + 3
  {
    if k == 0 {
      StartBudget(n);
    } else {
      RunLength(run, n, timeout, k - 1);
      assert StepAt(run, timeout, k - 1);
      var step :| Enabled(run[k-1], timeout, step) && run[k] == After(run[k-1], timeout, step);
      StepsDecrease(run[k-1], timeout, step);
    }
  }

  // ---------------------------------------------------------------- what the return waits for

  /** Steps other than a request's answer and the timeout. */
  predicate Own(step: Step) {
    !step.Finish? && !step.Expire?
  }

  ghost predicate OwnNext(s: State, timeout: bool, t: State) {
    exists step :: Own(step) && Enabled(s, timeout, step) && t == After(s, timeout, step)
  }

  ghost predicate OwnAt(path: seq<State>, timeout: bool, k: nat) {
    k + 1 < |path| && OwnNext(path[k], timeout, path[k+1])
  }

  /** The path leads from `s` to the return by Gather's own steps. */
  ghost predicate LeadsToReturn(path: seq<State>, s: State, timeout: bool) {
    path != [] && path[0] == s && path[|path|-1].returned && forall k: nat :: k + 1 < |path| ==> OwnAt(path, timeout, k)
  }

  ghost predicate CanReturn(s: State, timeout: bool) {
    exists path :: LeadsToReturn(path, s, timeout)
  }

  predicate Answered(s: State) {
    forall i :: 0 <= i < |s.workers| ==> s.workers[i] != Running
  }

  lemma OwnKeepsRunning(s: State, timeout: bool, step: Step)
    requires Own(step) && Enabled(s, timeout, step)
    ensures Answered(After(s, timeout, step)) <==> Answered(s)
  {
    var t := After(s, timeout, step);
    assert |t.workers| == |s.workers|;
    forall i | 0 <= i < |s.workers| ensures t.workers[i] == Running <==> s.workers[i] == Running {
    }
  }

  lemma {:induction false} PathAnswered(path: seq<State>, n: nat, timeout: bool, k: nat)
    requires path != [] && Reachable(path[0], n, timeout) && k < |path| && forall k: nat :: k + 1 < |path| ==> OwnAt(path, timeout, k)
    ensures Reachable(path[k], n, timeout) && (Answered(path[k]) <==> Answered(path[0]))
  {
    if k > 0 {
      PathAnswered(path, n, timeout, k - 1);
      assert OwnAt(path, timeout, k - 1);
      var step :| Own(step) && Enabled(path[k-1], timeout, step) && path[k] == After(path[k-1], timeout, step);
      OwnKeepsRunning(path[k-1], timeout, step);
      ReachableAfter(path[k-1], n, timeout, step);
    }
  }

  lemma ReachableAfter(s: State, n: nat, timeout: bool, step: Step)
    requires Reachable(s, n, timeout) && Enabled(s, timeout, step)
    ensures Reachable(After(s, timeout, step), n, timeout)
  {
    var run :| EndsIn(run, n, timeout, s);
    var longer := run + [After(s, timeout, step)];
    forall k: nat | k + 1 < |longer| ensures StepAt(longer, timeout, k) {
      if k + 1 < |run| {
        assert StepAt(run, timeout, k);
      } else {
        assert Next(longer[k], timeout, longer[k+1]);
      }
    }
    assert EndsIn(longer, n, timeout, After(s, timeout, step));
  }

  lemma {:induction false} PathToReturn(s: State, n: nat, timeout: bool) returns (path: seq<State>)
    requires Reachable(s, n, timeout) && Answered(s)
    ensures LeadsToReturn(path, s, timeout)
    decreases StepsLeft(s)
  {
    if s.returned {
      path := [s];
    } else {
      var step := NoDeadlock(s, n, timeout);
      assert Own(step);
      var t := After(s, timeout, step);
      OwnKeepsRunning(s, timeout, step);
      ReachableAfter(s, n, timeout, step);
      StepsDecrease(s, timeout, step);
      var rest := PathToReturn(t, n, timeout);
      path := [s] + rest;
      PathPrepend(s, timeout, step, rest);
    }
  }

  lemma PathPrepend(s: State, timeout: bool, step: Step, rest: seq<State>)
    requires Own(step) && Enabled(s, timeout, step) && LeadsToReturn(rest, After(s, timeout, step), timeout)
    ensures LeadsToReturn([s] + rest, s, timeout)
  {
    var path := [s] + rest;
    forall k: nat | k + 1 < |path| ensures OwnAt(path, timeout, k) {
      if k > 0 {
        assert OwnAt(rest, timeout, k - 1);
      } else {
        assert OwnNext(path[0], timeout, path[1]);
      }
    }
  }

  /** In any reachable state, past the timeout or before it, Gather can come to its return without another answer if and
      only if every request has answered. */
  lemma ReturnNeedsAnswers(s: State, n: nat, timeout: bool)
    requires Reachable(s, n, timeout)
    ensures CanReturn(s, timeout) <==> Answered(s)
  {
    if CanReturn(s, timeout) {
      var path :| LeadsToReturn(path, s, timeout);
      PathAnswered(path, n, timeout, |path| - 1);
      ReturnsAll(path[|path|-1], n, timeout);
    }
    if Answered(s) {
      var path := PathToReturn(s, n, timeout);
    }
  }
}
