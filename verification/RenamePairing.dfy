/** How the callback of file/observe_darwin.go pairs the rename events of a batch: old name first, then the new one. */
module RenamePairing {
  import opened Collections

  /** An event's flags, and whether its path has a form relative to the root. */
  datatype Event = Event(relative: bool, isDir: bool, isFile: bool, renamed: bool)

  /** What the callback does: rename from the name in one event to that in another; take a lone rename for a file moved
      out of or into the tree; handle an event's other flags. */
  datatype Action = Rename(before: nat, after: nat) | Settle(event: nat) | Flags(event: nat)

  predicate Seen(e: Event) {
    e.relative && (e.isDir || e.isFile)
  }

  // ---------------------------------------------------------------- the loop

  /** `oldf` is the rename event still without a partner. */
  datatype State = State(oldf: Option<nat>, actions: seq<Action>)

  function Settled(s: State): State {
    if s.oldf.Some? then State(None, s.actions + [Settle(s.oldf.value)]) else s
  }

  function After(s: State, events: seq<Event>, i: nat): State
    requires i < |events|
  {
    var e := events[i];
    if !Seen(e) then s
    else if e.renamed && s.oldf.None? && i + 1 < |events| then s.(oldf := Some(i))
    else if e.renamed && s.oldf.Some? then State(None, s.actions + [Rename(s.oldf.value, i)])
    else
      var r := Settled(if e.renamed then s.(oldf := Some(i)) else s);
      r.(actions := r.actions + [Flags(i)])
  }

  /** After the first `k` events of the batch. */
  function Run(events: seq<Event>, k: nat): State
    requires k <= |events|
  {
    if k == 0 then State(None, []) else After(Run(events, k - 1), events, k - 1)
  }

  method Callback(events: seq<Event>) returns (actions: seq<Action>, oldf: Option<nat>)
    ensures State(oldf, actions) == Run(events, |events|)
  {
    actions, oldf := [], None;
    for i := 0 to |events|
      invariant State(oldf, actions) == Run(events, i)
    {
      var e := events[i];
      if !e.relative || (!e.isDir && !e.isFile) {
        continue;
      }
      if e.renamed {
        if oldf.None? {
          oldf := Some(i);
          if i + 1 < |events| {
            continue;
          }
        } else {
          actions := actions + [Rename(oldf.value, i)];
          oldf := None;
          continue;
        }
      }
      if oldf.Some? {
        actions := actions + [Settle(oldf.value)];
        oldf := None;
      }
      actions := actions + [Flags(i)];
    }
  }

  // ---------------------------------------------------------------- which events pair

  /** The length of the run of renames that ends the first `k` events, the events not seen left out. */
  function Streak(events: seq<Event>, k: nat): nat
    requires k <= |events|
  {
    if k == 0 then 0
    else if !Seen(events[k-1]) then Streak(events, k - 1)
    else if events[k-1].renamed then Streak(events, k - 1) + 1
    else 0
  }

  predicate IsRename(events: seq<Event>, i: nat) {
    i < |events| && Seen(events[i]) && events[i].renamed
  }

  /** No event between the two is seen. */
  predicate Adjacent(events: seq<Event>, i: nat, j: nat)
    requires j <= |events|
  {
    i < j && forall m :: i < m < j ==> !Seen(events[m])
  }

  /** In mid-batch an event waits for its partner exactly after an odd number of renames, and it is the last of them. */
  lemma {:induction false} WaitsAfterOdd(events: seq<Event>, k: nat)
    requires k < |events|
    ensures Run(events, k).oldf.Some? <==> Streak(events, k) % 2 == 1
    ensures Run(events, k).oldf.Some? ==> var i := Run(events, k).oldf.value;
              i < k && IsRename(events, i) && Adjacent(events, i, k) && Streak(events, i) % 2 == 0
  {
    if k > 0 {
      WaitsAfterOdd(events, k - 1);
    }
  }

  ghost predicate Pairs(events: seq<Event>, i: nat, j: nat) {
    IsRename(events, i) && IsRename(events, j) && Adjacent(events, i, j) && Streak(events, i) % 2 == 0
  }

  lemma AdjacentStreak(events: seq<Event>, i: nat, j: nat)
    requires i < j <= |events| && IsRename(events, i) && Adjacent(events, i, j)
    ensures Streak(events, j) == Streak(events, i) + 1
  {
    if j > i + 1 {
      AdjacentStreak(events, i, j - 1);
    }
  }

  lemma LastAdjacent(events: seq<Event>, i: nat, i': nat, j: nat)
    requires j <= |events| && Adjacent(events, i, j) && Adjacent(events, i', j) && IsRename(events, i) && IsRename(events, i')
    ensures i == i'
  {
  }

  /** Two events are taken for one rename exactly when they are neighbours among the events seen, both renames, and an
      even number of renames comes directly before them. */
  lemma {:induction false} RenamesArePairs(events: seq<Event>, k: nat, i: nat, j: nat)
    requires k <= |events|
    ensures Rename(i, j) in Run(events, k).actions <==> j < k && Pairs(events, i, j)
  {
    if k > 0 {
      RenamesArePairs(events, k - 1, i, j);
      WaitsAfterOdd(events, k - 1);
      var s := Run(events, k - 1);
      if j == k - 1 && Pairs(events, i, j) {
        AdjacentStreak(events, i, j);
        assert s.oldf.Some?;
        LastAdjacent(events, i, s.oldf.value, j);
      }
    }
  }

  // ---------------------------------------------------------------- renames left over

  function Renames(events: seq<Event>, k: nat): nat
    requires k <= |events|
  {
    if k == 0 then 0 else Renames(events, k - 1) + if IsRename(events, k - 1) then 1 else 0
  }

  /** How many rename events the actions use up. */
  function Used(actions: seq<Action>): nat {
    if actions == [] then 0
    else Used(actions[..|actions|-1]) + match actions[|actions|-1] case Rename(_, _) => 2 case Settle(_) => 1 case Flags(_) => 0
  }

  lemma UsedMore(actions: seq<Action>, a: Action)
    ensures Used(actions + [a]) == Used(actions) + match a case Rename(_, _) => 2 case Settle(_) => 1 case Flags(_) => 0
  {
    assert (actions + [a])[..|actions|] == actions;
  }

  /** Rename events used up or waiting. */
  function Taken(s: State): nat {
    Used(s.actions) + if s.oldf.Some? then 1 else 0
  }

  lemma SettledTakes(s: State, i: nat)
    ensures Taken(Settled(s).(actions := Settled(s).actions + [Flags(i)])) == Taken(s)
  {
    UsedMore(Settled(s).actions, Flags(i));
    if s.oldf.Some? {
      UsedMore(s.actions, Settle(s.oldf.value));
    }
  }

  lemma AfterTakes(s: State, events: seq<Event>, i: nat)
    requires i < |events|
    ensures Taken(After(s, events, i)) == Taken(s) + if IsRename(events, i) then 1 else 0
  {
    if s.oldf.Some? {
      UsedMore(s.actions, Rename(s.oldf.value, i));
    }
    SettledTakes(s, i);
    SettledTakes(s.(oldf := Some(i)), i);
  }

  lemma {:induction false} UsedOnce(events: seq<Event>, k: nat)
    requires k <= |events|
    ensures Taken(Run(events, k)) == Renames(events, k)
  {
    if k > 0 {
      UsedOnce(events, k - 1);
      AfterTakes(Run(events, k - 1), events, k - 1);
    }
  }

  /** Every rename event of a batch is used up once, except that the last is dropped exactly when it has no partner and
      only events that are not seen follow it. */
  lemma LoneRenameDropped(events: seq<Event>)
    ensures var s, n := Run(events, |events|), |events|;
            && (s.oldf.Some? <==> n > 0 && !Seen(events[n-1]) && Streak(events, n) % 2 == 1)
            && Used(s.actions) == Renames(events, n) - (if s.oldf.Some? then 1 else 0)
  {
    UsedOnce(events, |events|);
    if events != [] {
      WaitsAfterOdd(events, |events| - 1);
    }
  }

  // ---------------------------------------------------------------- every action of a batch

  function Count(actions: seq<Action>, a: Action): nat {
    multiset(actions)[a]
  }

  /** An event's other flags call for action: it is seen, and is no rename, or a rename that ends the batch and has none
      before it to go with. */
  predicate Flagged(events: seq<Event>, i: nat) {
    && i < |events|
    && events[i].relative && (events[i].isDir || events[i].isFile)
    && (events[i].renamed ==> i + 1 == |events| && Streak(events, i) % 2 == 0)
  }

  /** What event `k` adds to the actions when `oldf` is still without a partner. */
  function Added(events: seq<Event>, k: nat, oldf: Option<nat>): seq<Action>
    requires k < |events|
  {
    if !Seen(events[k]) then []
    else if events[k].renamed && oldf.Some? then [Rename(oldf.value, k)]
    else if events[k].renamed && k + 1 < |events| then []
    else if events[k].renamed then [Settle(k), Flags(k)]
    else if oldf.Some? then [Settle(oldf.value), Flags(k)]
    else [Flags(k)]
  }

  lemma RunAdds(events: seq<Event>, k: nat)
    requires k < |events|
    ensures Run(events, k + 1).actions == Run(events, k).actions + Added(events, k, Run(events, k).oldf)
  {
    var s := Run(events, k);
    if s.oldf.Some? {
      assert s.actions + [Settle(s.oldf.value)] + [Flags(k)] == s.actions + [Settle(s.oldf.value), Flags(k)];
    } else {
      assert s.actions + [Settle(k)] + [Flags(k)] == s.actions + [Settle(k), Flags(k)];
    }
  }

  lemma AddedFlags(events: seq<Event>, k: nat, oldf: Option<nat>, i: nat)
    requires k < |events| && (oldf.Some? <==> Streak(events, k) % 2 == 1)
    ensures Count(Added(events, k, oldf), Flags(i)) == if i == k && Flagged(events, i) then 1 else 0
  {
  }

  /** The flags of an event are handled exactly once if they call for it, and otherwise not at all. */
  lemma {:induction false} FlagsIff(events: seq<Event>, k: nat, i: nat)
    requires k <= |events|
    ensures Count(Run(events, k).actions, Flags(i)) == if i < k && Flagged(events, i) then 1 else 0
  {
    if k > 0 {
      FlagsIff(events, k - 1, i);
      StepFlags(events, k - 1, k, i);
    }
  }

  lemma StepFlags(events: seq<Event>, k: nat, next: nat, i: nat)
    requires k < |events| && next == k + 1
    requires Count(Run(events, k).actions, Flags(i)) == if i < k && Flagged(events, i) then 1 else 0
    ensures Count(Run(events, next).actions, Flags(i)) == if i < next && Flagged(events, i) then 1 else 0
  {
    WaitsAfterOdd(events, k);
    RunAdds(events, k);
    AddedFlags(events, k, Run(events, k).oldf, i);
  }

  /** The rename in event `i`, with an even number of renames directly before it, goes without a partner, which shows in
      event `j`: the next one seen is no rename, or the batch ends with `i`. */
  predicate Settles(events: seq<Event>, i: nat, j: nat) {
    && IsRename(events, i) && Streak(events, i) % 2 == 0
    && (if i == j then i + 1 == |events| else j < |events| && Adjacent(events, i, j) && Seen(events[j]) && !events[j].renamed)
  }

  /** The lone rename is dealt with, and right after it the event's flags. */
  predicate SettledAt(actions: seq<Action>, x: nat, i: nat, j: nat) {
    x + 1 < |actions| && actions[x] == Settle(i) && actions[x+1] == Flags(j)
  }

  ghost predicate SettledBefore(actions: seq<Action>, i: nat, j: nat) {
    exists x :: SettledAt(actions, x, i, j)
  }

  lemma SettledMore(actions: seq<Action>, more: seq<Action>, i: nat, j: nat)
    requires SettledBefore(actions, i, j)
    ensures SettledBefore(actions + more, i, j)
  {
    var x :| SettledAt(actions, x, i, j);
    assert SettledAt(actions + more, x, i, j);
  }

  lemma JustSettled(actions: seq<Action>, i: nat, j: nat)
    ensures SettledBefore(actions + [Settle(i), Flags(j)], i, j)
  {
    assert SettledAt(actions + [Settle(i), Flags(j)], |actions|, i, j);
  }

  lemma StepSettles(events: seq<Event>, k: nat, i: nat, j: nat)
    requires k < |events| && (SettledBefore(Run(events, k).actions, i, j) || (j == k && Settles(events, i, j)))
    ensures SettledBefore(Run(events, k + 1).actions, i, j)
  {
    var actions, oldf := Run(events, k).actions, Run(events, k).oldf;
    RunAdds(events, k);
    if SettledBefore(actions, i, j) {
      SettledMore(actions, Added(events, k, oldf), i, j);
    } else {
      SettledNow(events, k, i);
      assert Added(events, k, oldf) == [Settle(i), Flags(j)];
      JustSettled(actions, i, j);
    }
  }

  /** Every rename that goes without a partner is dealt with, directly before the flags of the event that shows it. */
  lemma {:induction false} LoneIsSettled(events: seq<Event>, k: nat, i: nat, j: nat)
    requires k <= |events| && j < k && Settles(events, i, j)
    ensures SettledBefore(Run(events, k).actions, i, j)
  {
    if j < k - 1 {
      LoneIsSettled(events, k - 1, i, j);
    }
    StepSettles(events, k - 1, i, j);
  }

  ghost predicate SettledSoFar(events: seq<Event>, k: nat, i: nat) {
    exists j: nat :: j < k && Settles(events, i, j)
  }

  lemma AddedSettle(events: seq<Event>, k: nat, i: nat)
    requires k < |events|
    ensures Count(Added(events, k, Run(events, k).oldf), Settle(i)) == if Settles(events, i, k) then 1 else 0
  {
    WaitsAfterOdd(events, k);
    SettledNow(events, k, i);
  }

  /** And just once; no other event is taken for one. */
  lemma {:induction false} SettleCount(events: seq<Event>, k: nat, i: nat)
    requires k <= |events|
    ensures Count(Run(events, k).actions, Settle(i)) == if SettledSoFar(events, k, i) then 1 else 0
  {
    if k > 0 {
      SettleCount(events, k - 1, i);
      StepSettle(events, k - 1, k, i);
    } else {
      NothingYet(events, k, i);
    }
  }

  lemma NothingYet(events: seq<Event>, k: nat, i: nat)
    requires k == 0
    ensures Count(Run(events, k).actions, Settle(i)) == 0 && !SettledSoFar(events, k, i)
  {
  }

  lemma StepSettle(events: seq<Event>, k: nat, next: nat, i: nat)
    requires k < |events| && next == k + 1
    requires Count(Run(events, k).actions, Settle(i)) == if SettledSoFar(events, k, i) then 1 else 0
    ensures Count(Run(events, next).actions, Settle(i)) == if SettledSoFar(events, next, i) then 1 else 0
  {
    RunAdds(events, k);
    AddedSettle(events, k, i);
    SettledNext(events, k, i);
  }

  lemma SettledNext(events: seq<Event>, k: nat, i: nat)
    requires k < |events|
    ensures SettledSoFar(events, k + 1, i) <==> SettledSoFar(events, k, i) || Settles(events, i, k)
    ensures !(SettledSoFar(events, k, i) && Settles(events, i, k))
  {
    SettledNow(events, k, i);
    if SettledSoFar(events, k + 1, i) && !Settles(events, i, k) {
      var j: nat :| j < k + 1 && Settles(events, i, j);
      assert j < k;
    }
  }

  /** Only the rename that waits can be shown to be without a partner, or the last event of the batch. */
  lemma SettledNow(events: seq<Event>, k: nat, i: nat)
    requires k < |events|
    ensures var oldf := Run(events, k).oldf;
            Settles(events, i, k) <==>
            if i == k then k + 1 == |events| && IsRename(events, k) && oldf.None?
            else oldf == Some(i) && Seen(events[k]) && !events[k].renamed
    ensures Settles(events, i, k) ==> !SettledSoFar(events, k, i)
  {
    WaitsAfterOdd(events, k);
    if i < k && IsRename(events, i) && Adjacent(events, i, k) {
      AdjacentStreak(events, i, k);
      if Run(events, k).oldf.Some? {
        LastAdjacent(events, i, Run(events, k).oldf.value, k);
      }
    }
  }

  /** Over the whole batch: a rename is dealt with as a lone one, once, if and only if an even number of renames comes
      directly before it, it has no partner, and the batch ends with it or another event seen follows. */
  lemma SettleIff(events: seq<Event>, i: nat)
    ensures Count(Run(events, |events|).actions, Settle(i)) ==
            if && IsRename(events, i) && Streak(events, i) % 2 == 0
               && (forall j: nat :: !Pairs(events, i, j))
               && (i + 1 == |events| || exists j :: i < j < |events| && Seen(events[j]))
            then 1 else 0
  {
    SettleCount(events, |events|, i);
    if SettledSoFar(events, |events|, i) {
      var j: nat :| j < |events| && Settles(events, i, j);
      forall m: nat ensures !Pairs(events, i, m) {
        NextSeen(events, i, j, m);
      }
    }
    if IsRename(events, i) && Streak(events, i) % 2 == 0 && (forall j: nat :: !Pairs(events, i, j)) {
      if i + 1 == |events| {
        assert Settles(events, i, i);
      } else if exists j :: i < j < |events| && Seen(events[j]) {
        var j :| i < j < |events| && Seen(events[j]);
        var m := FirstSeen(events, i, j);
        assert !Pairs(events, i, m);
        assert Settles(events, i, m);
      }
    }
  }

  lemma NextSeen(events: seq<Event>, i: nat, j: nat, m: nat)
    requires j < |events|
    ensures Adjacent(events, i, j) && Seen(events[j]) && m < |events| && Adjacent(events, i, m) && Seen(events[m]) ==> j == m
  {
  }

  lemma {:induction false} FirstSeen(events: seq<Event>, i: nat, j: nat) returns (m: nat)
    requires i < j < |events| && Seen(events[j])
    ensures m < |events| && Adjacent(events, i, m) && Seen(events[m])
    decreases j
  {
    if m' :| i < m' < j && Seen(events[m']) {
      m := FirstSeen(events, i, m');
    } else {
      m := j;
    }
  }

  /** The event that an action is about; of a rename, the one with the new name. */
  function About(a: Action): nat {
    match a case Rename(_, i) => i case Settle(i) => i case Flags(i) => i
  }

  ghost predicate InOrder(actions: seq<Action>, n: nat) {
    && (forall x :: 0 <= x < |actions| ==> About(actions[x]) < n)
    && (forall x, y :: 0 <= x < y < |actions| ==> About(actions[x]) <= About(actions[y]))
  }

  lemma InOrderMore(actions: seq<Action>, more: seq<Action>, from: nat, n: nat)
    requires InOrder(actions, from) && InOrder(more, n) && from <= n
    requires forall x :: 0 <= x < |more| ==> from <= About(more[x])
    ensures InOrder(actions + more, n)
  {
  }

  /** The actions come in the order of the events. */
  lemma {:induction false} ActionsInOrder(events: seq<Event>, k: nat)
    requires k <= |events|
    ensures InOrder(Run(events, k).actions, Reached(events, k))
  {
    if k > 0 {
      ActionsInOrder(events, k - 1);
      StepInOrder(events, k - 1);
    }
  }

  lemma StepInOrder(events: seq<Event>, k: nat)
    requires k < |events| && InOrder(Run(events, k).actions, Reached(events, k))
    ensures InOrder(Run(events, k + 1).actions, Reached(events, k + 1))
  {
    RunAdds(events, k);
    AddedInOrder(events, k);
    InOrderMore(Run(events, k).actions, Added(events, k, Run(events, k).oldf), Reached(events, k), Reached(events, k + 1));
  }

  /** The event that waits, or the next one. */
  function Reached(events: seq<Event>, k: nat): nat
    requires k <= |events|
  {
    if Run(events, k).oldf.Some? then Run(events, k).oldf.value else k
  }

  lemma AddedInOrder(events: seq<Event>, k: nat)
    requires k < |events|
    ensures Reached(events, k) <= Reached(events, k + 1)
    ensures var more := Added(events, k, Run(events, k).oldf);
            InOrder(more, Reached(events, k + 1)) && forall x :: 0 <= x < |more| ==> Reached(events, k) <= About(more[x])
  {
    WaitsAfterOdd(events, k);
  }

  /** A rename and an event of something that is neither file nor directory: the rename is dropped. */
  lemma DroppedRename()
    ensures var events := [Event(true, false, true, true), Event(true, false, false, false)];
            Run(events, 2) == State(Some(0), [])
  {
    var events := [Event(true, false, true, true), Event(true, false, false, false)];
    assert Run(events, 0) == State(None, []);
    assert Run(events, 1) == State(Some(0), []);
  }

  /** Whatever their paths, two renames next to each other are taken for one. */
  lemma AnyTwoPair(first: Event, second: Event)
    requires Seen(first) && first.renamed && Seen(second) && second.renamed
    ensures Run([first, second], 2) == State(None, [Rename(0, 1)])
  {
    assert Run([first, second], 0) == State(None, []);
    assert Run([first, second], 1) == State(Some(0), []);
  }
}
