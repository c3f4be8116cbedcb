/** How many JSON values the encoder of message/encode.go writes into one file while it rotates. */
module FileValues {
  import opened Delivery

  // ---------------------------------------------------------------- read off the events

  /** Whether Loki is in use after the first `k` events. */
  predicate LokiAfter(loki: bool, events: seq<Event>, k: nat)
    requires k <= |events|
  {
    if k == 0 then loki
    else
      match events[k-1]
      case Observation(_, pushed, _) => LokiAfter(loki, events, k - 1) && pushed
      case LokiTick(ready) => LokiAfter(loki, events, k - 1) || ready
      case Measurement(_, _) => LokiAfter(loki, events, k - 1)
      case Rotation(_, _) => LokiAfter(loki, events, k - 1)
  }

  /** Messages have been left to the file since the last rotation. */
  predicate Pending(loki: bool, events: seq<Event>, k: nat)
    requires k <= |events|
  {
    k > 0 &&
    match events[k-1]
    case Measurement(ms, _) => ms != [] || Pending(loki, events, k - 1)
    case Observation(ms, pushed, _) => (ms != [] && !(LokiAfter(loki, events, k - 1) && pushed)) || Pending(loki, events, k - 1)
    case LokiTick(_) => Pending(loki, events, k - 1)
    case Rotation(_, _) => false
  }

  /** Event `k` is a rotation that writes a value. */
  predicate WritesAt(loki: bool, events: seq<Event>, k: nat) {
    k < |events| && events[k].Rotation? && events[k].o.encoded && Pending(loki, events, k)
  }

  /** Event `k` is a rotation that gets as far as a new file. */
  predicate SwitchesAt(loki: bool, cfg: Config, events: seq<Event>, k: nat) {
    && k < |events| && events[k].Rotation? && cfg.regular && (Pending(loki, events, k) ==> events[k].o.encoded)
    && events[k].o.statted && events[k].o.located && events[k].o.renamed && events[k].o.created
  }

  /** The value of rotation `i` is in the file being written when event `k` comes. */
  ghost predicate LeftAt(loki: bool, cfg: Config, events: seq<Event>, i: nat, k: nat) {
    i < k && WritesAt(loki, events, i) && forall j :: i <= j < k ==> !SwitchesAt(loki, cfg, events, j)
  }

  ghost predicate HoldsAt(loki: bool, cfg: Config, events: seq<Event>, k: nat) {
    exists i: nat :: LeftAt(loki, cfg, events, i, k)
  }

  /** Before event `n`, some rotation writes while the value of an earlier one is in a file that has not been switched. */
  ghost predicate Collides(loki: bool, cfg: Config, events: seq<Event>, n: nat) {
    exists j: nat :: j < n && WritesAt(loki, events, j) && HoldsAt(loki, cfg, events, j)
  }

  lemma HoldsNext(loki: bool, cfg: Config, events: seq<Event>, k: nat)
    ensures HoldsAt(loki, cfg, events, k + 1) <==>
            !SwitchesAt(loki, cfg, events, k) && (HoldsAt(loki, cfg, events, k) || WritesAt(loki, events, k))
  {
    if HoldsAt(loki, cfg, events, k + 1) {
      var i: nat :| LeftAt(loki, cfg, events, i, k + 1);
      assert i < k ==> LeftAt(loki, cfg, events, i, k);
    }
    if !SwitchesAt(loki, cfg, events, k) {
      if i: nat :| LeftAt(loki, cfg, events, i, k) {
        assert LeftAt(loki, cfg, events, i, k + 1);
      } else if WritesAt(loki, events, k) {
        assert LeftAt(loki, cfg, events, k, k + 1);
      }
    }
  }

  lemma CollidesNext(loki: bool, cfg: Config, events: seq<Event>, n: nat)
    ensures Collides(loki, cfg, events, n + 1) <==>
            Collides(loki, cfg, events, n) || (WritesAt(loki, events, n) && HoldsAt(loki, cfg, events, n))
  {
  }

  // ---------------------------------------------------------------- what a run leaves

  predicate AtMostOne(data: seq<seq<Value>>) {
    forall i :: 0 <= i < |data| ==> |data[i]| <= 1
  }

  lemma RotationValues(s: State, cfg: Config, t: nat, o: Outcome)
    requires s.data != []
    ensures var r := Rotated(s, cfg, t, o);
            var writes, holds, switches := s.cache != [] && o.encoded, s.data[|s.data|-1] != [], Renames(s, cfg, o) && o.created;
            && r.data != [] && (r.data[|r.data|-1] != [] <==> !switches && (holds || writes))
            && (AtMostOne(r.data) <==> AtMostOne(s.data) && !(writes && holds))
  {
    var last := |s.data| - 1;
    var r := Rotated(s, cfg, t, o);
    assert forall i :: 0 <= i < last ==> r.data[i] == s.data[i];
    if AtMostOne(r.data) {
      assert |r.data[last]| <= 1;
      forall i | 0 <= i < |s.data| ensures |s.data[i]| <= 1 {
        assert |r.data[i]| <= 1;
      }
    }
  }

  lemma AtEvent(loki: bool, cfg: Config, events: seq<Event>, k: nat)
    requires k < |events|
    ensures Run(loki, cfg, events[..k+1]) == After(Run(loki, cfg, events[..k]), cfg, events[k])
  {
    assert events[..k+1] == events[..k] + [events[k]];
    RunMore(loki, cfg, events[..k], events[k]);
  }

  lemma PendingNext(loki: bool, cfg: Config, events: seq<Event>, k: nat, s: State)
    requires cfg.interval != 0 && k < |events| && s.data != []
    requires s.loki == LokiAfter(loki, events, k) && (s.cache != [] <==> Pending(loki, events, k))
    ensures var r := After(s, cfg, events[k]);
            r.loki == LokiAfter(loki, events, k + 1) && (r.cache != [] <==> Pending(loki, events, k + 1))
  {
    match events[k]
    case Measurement(ms, _) => assert s.cache + ms == [] <==> s.cache == [] && ms == [];
    case Observation(ms, _, _) => assert s.cache + ms == [] <==> s.cache == [] && ms == [];
    case LokiTick(_) =>
    case Rotation(_, _) =>
  }

  lemma {:induction false} RunPending(loki: bool, cfg: Config, events: seq<Event>, k: nat)
    requires cfg.interval != 0 && k <= |events|
    ensures var s := Run(loki, cfg, events[..k]);
            s.loki == LokiAfter(loki, events, k) && (s.cache != [] <==> Pending(loki, events, k))
  {
    if k > 0 {
      RunPending(loki, cfg, events, k - 1);
      AtEvent(loki, cfg, events, k - 1);
      PendingNext(loki, cfg, events, k - 1, Run(loki, cfg, events[..k-1]));
    } else {
      assert events[..0] == [];
    }
  }

  /** The state after the first `k` events has the values that the events tell. */
  ghost predicate Tells(loki: bool, cfg: Config, events: seq<Event>, k: nat, data: seq<seq<Value>>) {
    && data != [] && (data[|data|-1] != [] <==> HoldsAt(loki, cfg, events, k))
    && (AtMostOne(data) <==> !Collides(loki, cfg, events, k))
  }

  lemma TellsNext(loki: bool, cfg: Config, events: seq<Event>, k: nat, s: State)
    requires cfg.interval != 0 && k < |events| && s.data != []
    requires (s.cache != [] <==> Pending(loki, events, k)) && Tells(loki, cfg, events, k, s.data)
    ensures Tells(loki, cfg, events, k + 1, After(s, cfg, events[k]).data)
  {
    HoldsNext(loki, cfg, events, k);
    CollidesNext(loki, cfg, events, k);
    match events[k]
    case Rotation(t, o) => RotationValues(s, cfg, t, o);
    case Measurement(_, _) =>
    case Observation(_, _, _) =>
    case LokiTick(_) =>
  }

  lemma TellsStart(loki: bool, cfg: Config, events: seq<Event>, data: seq<seq<Value>>)
    requires data == [[]]
    ensures Tells(loki, cfg, events, 0, data)
  {
  }

  lemma {:induction false} RunValues(loki: bool, cfg: Config, events: seq<Event>, k: nat)
    requires cfg.interval != 0 && k <= |events|
    ensures Tells(loki, cfg, events, k, Run(loki, cfg, events[..k]).data)
  {
    if k == 0 {
      assert events[..0] == [];
      TellsStart(loki, cfg, events, Start(loki).data);
    } else {
      RunValues(loki, cfg, events, k - 1);
      RunPending(loki, cfg, events, k - 1);
      AtEvent(loki, cfg, events, k - 1);
      TellsNext(loki, cfg, events, k - 1, Run(loki, cfg, events[..k-1]));
    }
  }

  /** While rotating, every file holds at most one JSON value if and only if no rotation writes while an earlier one's
      value is in a file that has not been switched since, because a call failed. */
  lemma OneValueIff(loki: bool, cfg: Config, events: seq<Event>)
    requires cfg.interval != 0
    ensures AtMostOne(Run(loki, cfg, events).data) <==> !Collides(loki, cfg, events, |events|)
  {
    RunValues(loki, cfg, events, |events|);
    assert events[..|events|] == events;
  }

  /** Every call of the rotation succeeds. */
  predicate Succeeds(cfg: Config, e: Event) {
    e.Rotation? ==> cfg.regular && e.o.encoded && e.o.statted && e.o.located && e.o.renamed && e.o.created
  }

  /** So each file holds at most one value, and the one being written none yet, if each rotation succeeds. */
  lemma OneValueAFile(loki: bool, cfg: Config, events: seq<Event>)
    requires cfg.interval != 0 && forall k :: 0 <= k < |events| ==> Succeeds(cfg, events[k])
    ensures var data := Run(loki, cfg, events).data; AtMostOne(data) && data[|data|-1] == []
  {
    RunValues(loki, cfg, events, |events|);
    assert events[..|events|] == events;
    forall i: nat, k: nat | k <= |events| ensures !LeftAt(loki, cfg, events, i, k) {
      if i < k && WritesAt(loki, events, i) {
        assert Succeeds(cfg, events[i]);
        assert SwitchesAt(loki, cfg, events, i);
      }
    }
  }

  /** After a rotation that writes and then fails, whichever its failing call, the next one adds a second value to the
      same file. */
  lemma FailedSwitchWritesTwice(s: State, cfg: Config, t: nat, u: nat, m: Message, o: Outcome, next: Outcome)
    requires cfg.interval != 0 && s.data != [] && s.cache != [] && o.encoded && next.encoded
    requires !(Renames(s, cfg, o) && o.created)
    ensures var r := After(After(After(s, cfg, Rotation(t, o)), cfg, Measurement([m], {})), cfg, Rotation(u, next));
            |s.data| <= |r.data| && r.data[|s.data|-1] == s.data[|s.data|-1] + [CacheValue(s.cache), One(m)]
  {
  }
}
