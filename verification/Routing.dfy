/** Which messages the encoder of message/encode.go hands to Loki, and in what form it writes the others. */
module Routing {
  import opened Delivery

  // ---------------------------------------------------------------- Loki

  /** Before event `k` Loki was found ready: at the start, or by the tick just before. */
  predicate FoundAt(loki: bool, events: seq<Event>, k: nat)
    requires k <= |events|
  {
    if k == 0 then loki else events[k-1] == LokiTick(true)
  }

  /** No push has failed since. */
  predicate NoFailureSince(events: seq<Event>, k: nat) {
    forall j :: k <= j < |events| && events[j].Observation? ==> events[j].pushed
  }

  ghost predicate UpSince(loki: bool, events: seq<Event>, k: nat) {
    k <= |events| && FoundAt(loki, events, k) && NoFailureSince(events, k)
  }

  ghost predicate Up(loki: bool, events: seq<Event>) {
    exists k: nat :: UpSince(loki, events, k)
  }

  lemma UpMore(loki: bool, events: seq<Event>, e: Event)
    ensures Up(loki, events + [e]) <==> e == LokiTick(true) || (Up(loki, events) && (e.Observation? ==> e.pushed))
  {
    var more := events + [e];
    if Up(loki, more) {
      var k: nat :| UpSince(loki, more, k);
      if k <= |events| {
        assert FoundAt(loki, events, k);
        assert forall j :: 0 <= j < |events| ==> events[j] == more[j];
        assert UpSince(loki, events, k);
        assert more[|events|] == e;
      }
    }
    if e == LokiTick(true) {
      assert UpSince(loki, more, |more|);
    } else if Up(loki, events) && (e.Observation? ==> e.pushed) {
      var k: nat :| UpSince(loki, events, k);
      assert UpSince(loki, more, k);
    }
  }

  /** Loki is in use exactly when it was found ready once, and no push has failed since. */
  lemma {:induction false} LokiIff(loki: bool, cfg: Config, events: seq<Event>)
    ensures Run(loki, cfg, events).loki <==> Up(loki, events)
  {
    if events == [] {
      assert loki ==> UpSince(loki, events, 0);
    } else {
      var front, e := events[..|events|-1], events[|events|-1];
      var s := Run(loki, cfg, front);
      assert events == front + [e];
      LokiIff(loki, cfg, front);
      UpMore(loki, front, e);
      LokiAfterEvent(s, cfg, e);
    }
  }

  lemma LokiAfterEvent(s: State, cfg: Config, e: Event)
    requires s.data != []
    ensures After(s, cfg, e).loki <==> e == LokiTick(true) || (s.loki && (e.Observation? ==> e.pushed))
  {
    match e
    case Measurement(ms, failed) => EncodedKeeps(Logged(s, ms, false), cfg, ms, failed);
    case Observation(ms, pushed, failed) =>
      EncodedKeeps(Logged(s.(loki := s.loki && pushed), ms, s.loki && pushed), cfg, ms, failed);
    case LokiTick(_) =>
    case Rotation(_, _) =>
  }

  /** An event's messages are all logged, and as taken by Loki if and only if they are observations, their push succeeds, and
      Loki is in use. */
  lemma LokiTakes(loki: bool, cfg: Config, events: seq<Event>, e: Event)
    ensures var before, after := Run(loki, cfg, events).log, Run(loki, cfg, events + [e]).log;
            after == before + Entries(EventMessages(e), e.Observation? && e.pushed && Up(loki, events))
  {
    var s := Run(loki, cfg, events);
    LokiIff(loki, cfg, events);
    assert (events + [e])[..|events|] == events;
    match e
    case Measurement(ms, failed) => EncodedKeeps(Logged(s, ms, false), cfg, ms, failed);
    case Observation(ms, pushed, failed) =>
      EncodedKeeps(Logged(s.(loki := s.loki && pushed), ms, s.loki && pushed), cfg, ms, failed);
    case LokiTick(_) => assert s.log + [] == s.log;
    case Rotation(t, o) =>
      RotatedLog(s, cfg, t, o);
      assert s.log + [] == s.log;
  }

  // ---------------------------------------------------------------- the form of what is written

  /** A message by itself is written as it is, several as an array. */
  predicate Shaped(v: Value) {
    v.Many? ==> |v.ms| >= 2
  }

  predicate AllShaped(data: seq<seq<Value>>) {
    forall i, j :: 0 <= i < |data| && 0 <= j < |data[i]| ==> Shaped(data[i][j])
  }

  lemma AppendShaped(s: State, v: Value)
    requires s.data != [] && AllShaped(s.data) && Shaped(v)
    ensures AllShaped(Append(s, v).data)
  {
  }

  lemma {:induction false} StreamShaped(s: State, ms: seq<Message>, failed: set<Message>)
    requires s.data != [] && AllShaped(s.data)
    ensures AllShaped(Stream(s, ms, failed).data)
  {
    if ms != [] {
      StreamShaped(s, ms[..|ms|-1], failed);
      AppendShaped(Stream(s, ms[..|ms|-1], failed), One(ms[|ms|-1]));
    }
  }

  lemma RotatedShaped(s: State, cfg: Config, t: nat, o: Outcome)
    requires s.data != [] && AllShaped(s.data)
    ensures AllShaped(Rotated(s, cfg, t, o).data)
  {
    if s.cache != [] {
      AppendShaped(s, CacheValue(s.cache));
    }
  }

  /** Over every run, an array in a file holds at least two messages. */
  lemma {:induction false} ArraysHoldSeveral(loki: bool, cfg: Config, events: seq<Event>)
    ensures AllShaped(Run(loki, cfg, events).data)
  {
    if events != [] {
      var s, e := Run(loki, cfg, events[..|events|-1]), events[|events|-1];
      ArraysHoldSeveral(loki, cfg, events[..|events|-1]);
      match e
      case Measurement(ms, failed) => StreamShaped(Logged(s, ms, false), ms, failed);
      case Observation(ms, pushed, failed) =>
        StreamShaped(Logged(s.(loki := s.loki && pushed), ms, s.loki && pushed), ms, failed);
      case LokiTick(_) =>
      case Rotation(t, o) => RotatedShaped(s, cfg, t, o);
    }
  }

  /** Without an interval nothing is ever cached, and with one, nothing is written before a rotation. */
  lemma {:induction false} WrittenWhen(loki: bool, cfg: Config, events: seq<Event>)
    ensures cfg.interval == 0 ==> Run(loki, cfg, events).cache == []
    ensures cfg.interval != 0 && (forall k :: 0 <= k < |events| ==> !events[k].Rotation?) ==> Run(loki, cfg, events).data == [[]]
  {
    ExactlyOnce(loki, cfg, events);
    if events != [] {
      var front, e := events[..|events|-1], events[|events|-1];
      WrittenWhen(loki, cfg, front);
      assert forall k :: 0 <= k < |front| ==> front[k] == events[k];
    }
  }
}
