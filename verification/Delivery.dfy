/** Where the encoder of message/encode.go puts every message: to Loki, into the cache, or into files that rotate. */
module Delivery {

  type Message = nat

  /** A JSON value in a file: a message by itself, or an array of them. */
  datatype Value = One(m: Message) | Many(ms: seq<Message>)

  /** A file's name, as the stamps added to the original one. */
  type Path = seq<int>

  /** A message received, and whether it went to Loki. */
  datatype Entry = Entry(m: Message, toLoki: bool)

  /** Nanoseconds between rotations, 0 for none, and whether standard output is a regular file. With a negative interval
      messages are cached, but no timer runs: only Close rotates. */
  datatype Config = Config(interval: int, regular: bool)

  /** What the calls of one Rotate return: the encoder, Stat, FdPath, Rename and Create. */
  datatype Outcome = Outcome(encoded: bool, statted: bool, located: bool, renamed: bool, created: bool)

  /** What the loop's select receives. `failed` holds the messages whose own encoding fails; a rotation is due to the
      timer, the ticker or Close. */
  datatype Event =
    | Measurement(ms: seq<Message>, failed: set<Message>)
    | Observation(ms: seq<Message>, pushed: bool, failed: set<Message>)
    | LokiTick(ready: bool)
    | Rotation(t: nat, o: Outcome)

  /** `data` holds the contents of each file created, oldest first; the last is standard output's, and `path` its name.
      `names` says which file a name leads to. `log` and `lost` record the messages received and those whose encoding
      failed, `stamps` the stamp of each rotation that switched files. */
  datatype State = State(
    loki: bool, cache: seq<Message>, names: map<Path, nat>, data: seq<seq<Value>>, path: Path,
    log: seq<Entry>, lost: seq<Message>, stamps: seq<int>)

  // ---------------------------------------------------------------- the flag

  const SECOND := 1_000_000_000
  const MINUTE := 60 * SECOND
  const HOUR := 60 * MINUTE
  const DAY := 24 * HOUR

  /** The interval that the flag stores for a duration. */
  function Set(d: int): int {
    if 0 < d < SECOND then SECOND else d
  }

  /** The resolution of the stamp's format. */
  function Unit(interval: int): (unit: nat)
    ensures unit > 0
    ensures interval >= SECOND ==> unit <= interval
  {
    if interval < MINUTE then SECOND
    else if interval < HOUR then MINUTE
    else if interval < DAY then HOUR
    else DAY
  }

  function Stamp(cfg: Config, t: nat): int {
    t / Unit(cfg.interval)
  }

  // ---------------------------------------------------------------- contents

  function ValueMessages(v: Value): seq<Message> {
    match v case One(m) => [m] case Many(ms) => ms
  }

  function Contents(vs: seq<Value>): seq<Message> {
    if vs == [] then [] else Contents(vs[..|vs|-1]) + ValueMessages(vs[|vs|-1])
  }

  /** Everything written to any file, in the order it was written. */
  function Written(data: seq<seq<Value>>): seq<Message> {
    if data == [] then [] else Written(data[..|data|-1]) + Contents(data[|data|-1])
  }

  function Filed(log: seq<Entry>): seq<Message> {
    if log == [] then []
    else Filed(log[..|log|-1]) + if log[|log|-1].toLoki then [] else [log[|log|-1].m]
  }

  function Received(log: seq<Entry>): seq<Message> {
    seq(|log|, i requires 0 <= i < |log| => log[i].m)
  }

  // ---------------------------------------------------------------- steps

  function Append(s: State, v: Value): State
    requires s.data != []
  {
    var last := |s.data| - 1;
    s.(data := s.data[last := s.data[last] + [v]])
  }

  function StreamOne(s: State, m: Message, failed: set<Message>): State
    requires s.data != []
  {
    if m in failed then s.(lost := s.lost + [m]) else Append(s, One(m))
  }

  /** Encodes each message by itself. */
  function Stream(s: State, ms: seq<Message>, failed: set<Message>): State
    requires s.data != []
    ensures Stream(s, ms, failed).data != []
  {
    if ms == [] then s
    else StreamOne(Stream(s, ms[..|ms|-1], failed), ms[|ms|-1], failed)
  }

  function Encoded(s: State, cfg: Config, ms: seq<Message>, failed: set<Message>): State
    requires s.data != []
  {
    if cfg.interval == 0 then Stream(s, ms, failed) else s.(cache := s.cache + ms)
  }

  function CacheValue(cache: seq<Message>): Value {
    if |cache| == 1 then One(cache[0]) else Many(cache)
  }

  function Flushed(s: State, encoded: bool): State
    requires s.data != []
  {
    if s.cache == [] then s
    else if encoded then Append(s, CacheValue(s.cache)).(cache := [])
    else s.(cache := [], lost := s.lost + s.cache)
  }

  predicate Renames(s: State, cfg: Config, o: Outcome) {
    (s.cache == [] || o.encoded) && o.statted && cfg.regular && o.located && o.renamed
  }

  function Rotated(s: State, cfg: Config, t: nat, o: Outcome): State
    requires s.data != []
  {
    var r := Flushed(s, o.encoded);
    if !Renames(s, cfg, o) then r
    else
      var newpath := r.path + [Stamp(cfg, t)];
      var moved := (r.names - {r.path})[newpath := |r.data| - 1];
      if !o.created then r.(names := moved, path := newpath)
      else r.(names := moved[r.path := |r.data|], data := r.data + [[]], stamps := r.stamps + [Stamp(cfg, t)])
  }

  function Entries(ms: seq<Message>, toLoki: bool): (es: seq<Entry>)
    ensures |es| == |ms|
  {
    seq(|ms|, i requires 0 <= i < |ms| => Entry(ms[i], toLoki))
  }

  function Logged(s: State, ms: seq<Message>, toLoki: bool): State {
    s.(log := s.log + Entries(ms, toLoki))
  }

  function After(s: State, cfg: Config, e: Event): State
    requires s.data != []
    ensures After(s, cfg, e).data != []
  {
    match e
    case Measurement(ms, failed) => Encoded(Logged(s, ms, false), cfg, ms, failed)
    case Observation(ms, pushed, failed) =>
      var loki := s.loki && pushed;
      var r := Logged(s.(loki := loki), ms, loki);
      if loki then r else Encoded(r, cfg, ms, failed)
    case LokiTick(ready) => s.(loki := s.loki || ready)
    case Rotation(t, o) => Rotated(s, cfg, t, o)
  }

  function Start(loki: bool): State {
    State(loki, [], map[[] := 0], [[]], [], [], [], [])
  }

  function Run(loki: bool, cfg: Config, events: seq<Event>): State
    ensures Run(loki, cfg, events).data != []
  {
    if events == [] then Start(loki)
    else After(Run(loki, cfg, events[..|events|-1]), cfg, events[|events|-1])
  }

  // ---------------------------------------------------------------- contents of files

  lemma {:induction false} StreamKeeps(s: State, ms: seq<Message>, failed: set<Message>)
    requires s.data != []
    ensures var r := Stream(s, ms, failed);
            r.log == s.log && r.loki == s.loki && r.names == s.names && r.path == s.path && r.stamps == s.stamps && |r.data| == |s.data|
  {
    if ms != [] {
      StreamKeeps(s, ms[..|ms|-1], failed);
    }
  }

  /** Encoding messages changes only what is written, cached and lost. */
  lemma EncodedKeeps(s: State, cfg: Config, ms: seq<Message>, failed: set<Message>)
    requires s.data != []
    ensures var r := Encoded(s, cfg, ms, failed);
            r.log == s.log && r.loki == s.loki && r.names == s.names && r.path == s.path && r.stamps == s.stamps && |r.data| == |s.data|
  {
    StreamKeeps(s, ms, failed);
  }

  lemma {:induction false} AppendWrites(data: seq<seq<Value>>, v: Value)
    requires data != []
    ensures Written(data[|data|-1 := data[|data|-1] + [v]]) == Written(data) + ValueMessages(v)
  {
    var last := |data| - 1;
    var more := data[last] + [v];
    assert data[last := more][..last] == data[..last];
    assert more[..|more|-1] == data[last];
  }

  lemma CreateWritesNothing(data: seq<seq<Value>>)
    ensures Written(data + [[]]) == Written(data)
  {
    assert (data + [[]])[..|data|] == data;
  }

  lemma {:induction false} FiledMore(log: seq<Entry>, ms: seq<Message>, toLoki: bool)
    ensures Filed(log + Entries(ms, toLoki)) == Filed(log) + if toLoki then [] else ms
  {
    var n := |ms|;
    if n == 0 {
      assert log + Entries(ms, toLoki) == log;
    } else {
      FiledMore(log, ms[..n-1], toLoki);
      var more := log + Entries(ms, toLoki);
      assert more[..|more|-1] == log + Entries(ms[..n-1], toLoki);
      assert ms == ms[..n-1] + [ms[n-1]];
    }
  }

  // ---------------------------------------------------------------- each message exactly once

  /** Every message filed is in exactly one place: written, cached, or among those whose encoding failed; and if none
      failed, in the order it was received. */
  ghost predicate Split(written: seq<Message>, cache: seq<Message>, lost: seq<Message>, filed: seq<Message>) {
    && multiset(written) + multiset(cache) + multiset(lost) == multiset(filed)
    && (lost == [] ==> written + cache == filed)
  }

  lemma SplitWritten(written: seq<Message>, lost: seq<Message>, filed: seq<Message>, m: Message)
    requires Split(written, [], lost, filed)
    ensures Split(written + [m], [], lost, filed + [m])
  {
    assert written + [] == written && (written + [m]) + [] == written + [m];
  }

  lemma SplitLost(written: seq<Message>, lost: seq<Message>, filed: seq<Message>, m: Message)
    requires Split(written, [], lost, filed)
    ensures Split(written, [], lost + [m], filed + [m])
  {
  }

  lemma SplitCached(written: seq<Message>, cache: seq<Message>, lost: seq<Message>, filed: seq<Message>, ms: seq<Message>)
    requires Split(written, cache, lost, filed)
    ensures Split(written, cache + ms, lost, filed + ms)
  {
    assert written + (cache + ms) == (written + cache) + ms;
  }

  lemma SplitFlushed(written: seq<Message>, cache: seq<Message>, lost: seq<Message>, filed: seq<Message>)
    requires Split(written, cache, lost, filed)
    ensures Split(written + cache, [], lost, filed)
    ensures cache != [] ==> Split(written, [], lost + cache, filed)
    ensures cache == [] ==> Split(written, [], lost, filed)
  {
    assert (written + cache) + [] == written + cache;
  }

  ghost predicate Accounted(s: State, filed: seq<Message>) {
    Split(Written(s.data), s.cache, s.lost, filed)
  }

  lemma StreamOneAccounts(s: State, m: Message, failed: set<Message>, filed: seq<Message>)
    requires s.data != [] && s.cache == [] && Accounted(s, filed)
    ensures Accounted(StreamOne(s, m, failed), filed + [m])
  {
    if m in failed {
      SplitLost(Written(s.data), s.lost, filed, m);
    } else {
      AppendWrites(s.data, One(m));
      SplitWritten(Written(s.data), s.lost, filed, m);
    }
  }

  lemma Rejoin(before: seq<Message>, ms: seq<Message>)
    requires ms != []
    ensures before + ms == (before + ms[..|ms|-1]) + [ms[|ms|-1]]
  {
  }

  lemma {:induction false} StreamAccounts(s: State, ms: seq<Message>, failed: set<Message>, filed: seq<Message>)
    requires s.data != [] && s.cache == [] && Accounted(s, filed)
    ensures var r := Stream(s, ms, failed); r.cache == [] && Accounted(r, filed + ms)
  {
    var n := |ms|;
    if n == 0 {
      assert filed + ms == filed;
    } else {
      var first, m := ms[..n-1], ms[n-1];
      StreamAccounts(s, first, failed, filed);
      var r := Stream(s, first, failed);
      StreamOneAccounts(r, m, failed, filed + first);
      Rejoin(filed, ms);
    }
  }

  lemma EncodedAccounts(s: State, cfg: Config, ms: seq<Message>, failed: set<Message>, filed: seq<Message>)
    requires s.data != [] && (cfg.interval == 0 ==> s.cache == []) && Accounted(s, filed)
    ensures var r := Encoded(s, cfg, ms, failed); (cfg.interval == 0 ==> r.cache == []) && Accounted(r, filed + ms)
  {
    if cfg.interval == 0 {
      StreamAccounts(s, ms, failed, filed);
    } else {
      SplitCached(Written(s.data), s.cache, s.lost, filed, ms);
    }
  }

  lemma FlushedAccounts(s: State, encoded: bool, filed: seq<Message>)
    requires s.data != [] && Accounted(s, filed)
    ensures var r := Flushed(s, encoded); r.cache == [] && Accounted(r, filed)
  {
    AppendWrites(s.data, CacheValue(s.cache));
    SplitFlushed(Written(s.data), s.cache, s.lost, filed);
    assert s.cache != [] ==> ValueMessages(CacheValue(s.cache)) == s.cache;
  }

  lemma RotatedAccounts(s: State, cfg: Config, t: nat, o: Outcome, filed: seq<Message>)
    requires s.data != [] && Accounted(s, filed)
    ensures var r := Rotated(s, cfg, t, o); r.cache == [] && Accounted(r, filed)
  {
    FlushedAccounts(s, o.encoded, filed);
    CreateWritesNothing(Flushed(s, o.encoded).data);
  }

  function EventMessages(e: Event): seq<Message> {
    match e
    case Measurement(ms, _) => ms
    case Observation(ms, _, _) => ms
    case LokiTick(_) => []
    case Rotation(_, _) => []
  }

  function AllMessages(events: seq<Event>): seq<Message> {
    if events == [] then [] else AllMessages(events[..|events|-1]) + EventMessages(events[|events|-1])
  }

  lemma ReceivedMore(log: seq<Entry>, ms: seq<Message>, toLoki: bool)
    ensures Received(log + Entries(ms, toLoki)) == Received(log) + ms
  {
  }

  /** Holds between events: nothing is cached without rotation, and every message filed is accounted for. */
  ghost predicate Steady(s: State, cfg: Config) {
    (cfg.interval == 0 ==> s.cache == []) && Accounted(s, Filed(s.log))
  }

  lemma FiledSteady(s: State, cfg: Config, ms: seq<Message>, failed: set<Message>)
    requires s.data != [] && Steady(s, cfg)
    ensures Steady(Encoded(Logged(s, ms, false), cfg, ms, failed), cfg)
  {
    FiledMore(s.log, ms, false);
    EncodedAccounts(Logged(s, ms, false), cfg, ms, failed, Filed(s.log));
    EncodedKeeps(Logged(s, ms, false), cfg, ms, failed);
  }

  lemma PushedSteady(s: State, cfg: Config, ms: seq<Message>)
    requires Steady(s, cfg)
    ensures Steady(Logged(s, ms, true), cfg)
  {
    FiledMore(s.log, ms, true);
    assert Filed(s.log) + [] == Filed(s.log);
  }

  lemma ObservationSteady(s: State, cfg: Config, ms: seq<Message>, pushed: bool, failed: set<Message>)
    requires s.data != [] && Steady(s, cfg)
    ensures Steady(After(s, cfg, Observation(ms, pushed, failed)), cfg)
  {
    var r := s.(loki := s.loki && pushed);
    if r.loki {
      PushedSteady(r, cfg, ms);
    } else {
      FiledSteady(r, cfg, ms, failed);
    }
  }

  lemma TickSteady(s: State, cfg: Config, ready: bool)
    requires s.data != [] && Steady(s, cfg)
    ensures Steady(After(s, cfg, LokiTick(ready)), cfg)
  {
  }

  lemma RotationSteady(s: State, cfg: Config, t: nat, o: Outcome)
    requires s.data != [] && Steady(s, cfg)
    ensures Steady(After(s, cfg, Rotation(t, o)), cfg)
  {
    var filed := Filed(s.log);
    RotatedAccounts(s, cfg, t, o, filed);
    RotatedLog(s, cfg, t, o);
    AccountedSteady(Rotated(s, cfg, t, o), cfg, filed);
  }

  lemma AccountedSteady(s: State, cfg: Config, filed: seq<Message>)
    requires Accounted(s, filed) && s.cache == [] && Filed(s.log) == filed
    ensures Steady(s, cfg)
  {
  }

  lemma RotatedLog(s: State, cfg: Config, t: nat, o: Outcome)
    requires s.data != []
    ensures Rotated(s, cfg, t, o).log == s.log
  {
  }

  lemma AfterSteady(s: State, cfg: Config, e: Event)
    requires s.data != [] && Steady(s, cfg)
    ensures Steady(After(s, cfg, e), cfg)
  {
    match e
    case Measurement(ms, failed) => FiledSteady(s, cfg, ms, failed);
    case Observation(ms, pushed, failed) => ObservationSteady(s, cfg, ms, pushed, failed);
    case LokiTick(ready) => TickSteady(s, cfg, ready);
    case Rotation(t, o) => RotationSteady(s, cfg, t, o);
  }

  lemma AfterReceives(s: State, cfg: Config, e: Event)
    requires s.data != []
    ensures Received(After(s, cfg, e).log) == Received(s.log) + EventMessages(e)
  {
    match e
    case Measurement(ms, failed) =>
      ReceivedMore(s.log, ms, false);
      EncodedKeeps(Logged(s, ms, false), cfg, ms, failed);
    case Observation(ms, pushed, failed) =>
      ReceivedMore(s.log, ms, s.loki && pushed);
      EncodedKeeps(Logged(s.(loki := s.loki && pushed), ms, s.loki && pushed), cfg, ms, failed);
    case LokiTick(ready) => assert Received(s.log) + [] == Received(s.log);
    case Rotation(t, o) => assert Received(s.log) + [] == Received(s.log);
  }

  /** Over every run, whatever fails, each message received is logged once, and each not taken by Loki is in a file, in
      the cache, or lost with a failed encoding; without such failures the files hold them in the order received. */
  lemma {:induction false} ExactlyOnce(loki: bool, cfg: Config, events: seq<Event>)
    ensures var s := Run(loki, cfg, events);
            Received(s.log) == AllMessages(events) && Steady(s, cfg)
  {
    if events != [] {
      ExactlyOnce(loki, cfg, events[..|events|-1]);
      AfterSteady(Run(loki, cfg, events[..|events|-1]), cfg, events[|events|-1]);
      AfterReceives(Run(loki, cfg, events[..|events|-1]), cfg, events[|events|-1]);
    }
  }

  /** No encoding fails in the event. */
  predicate Encodes(e: Event) {
    match e
    case Measurement(_, failed) => failed == {}
    case Observation(_, _, failed) => failed == {}
    case LokiTick(_) => true
    case Rotation(_, o) => o.encoded
  }

  lemma {:induction false} StreamLosesNothing(s: State, ms: seq<Message>, failed: set<Message>)
    requires s.data != [] && failed == {}
    ensures Stream(s, ms, failed).lost == s.lost
  {
    if ms != [] {
      StreamLosesNothing(s, ms[..|ms|-1], failed);
    }
  }

  lemma {:induction false} NothingLost(loki: bool, cfg: Config, events: seq<Event>)
    requires forall k :: 0 <= k < |events| ==> Encodes(events[k])
    ensures Run(loki, cfg, events).lost == []
  {
    if events != [] {
      var n := |events| - 1;
      NothingLost(loki, cfg, events[..n]);
      var s, e := Run(loki, cfg, events[..n]), events[n];
      assert Encodes(e);
      match e
      case Measurement(ms, failed) => StreamLosesNothing(Logged(s, ms, false), ms, failed);
      case Observation(ms, pushed, failed) =>
        StreamLosesNothing(Logged(s.(loki := s.loki && pushed), ms, s.loki && pushed), ms, failed);
      case LokiTick(_) =>
      case Rotation(_, _) =>
    }
  }

  lemma RunMore(loki: bool, cfg: Config, events: seq<Event>, e: Event)
    ensures Run(loki, cfg, events + [e]) == After(Run(loki, cfg, events), cfg, e)
  {
    var more := events + [e];
    assert more[..|more|-1] == events;
  }

  /** After the rotation of Close nothing is cached: with successful encodes, the files hold all that Loki did not take. */
  lemma CloseWritesAll(loki: bool, cfg: Config, events: seq<Event>, t: nat, o: Outcome)
    ensures var s := Rotated(Run(loki, cfg, events), cfg, t, o);
            && s.cache == [] && Received(s.log) == AllMessages(events)
            && (o.encoded && (forall k :: 0 <= k < |events| ==> Encodes(events[k])) ==> Written(s.data) == Filed(s.log))
  {
    ExactlyOnce(loki, cfg, events);
    var before := Run(loki, cfg, events);
    RotatedAccounts(before, cfg, t, o, Filed(before.log));
    var s := Rotated(before, cfg, t, o);
    if o.encoded && forall k :: 0 <= k < |events| ==> Encodes(events[k]) {
      NothingLost(loki, cfg, events);
      assert Written(s.data) + [] == Written(s.data);
    }
  }

  // ---------------------------------------------------------------- names

  /** Standard output has a name, and no two names lead to one file. */
  ghost predicate Named(s: State) {
    && s.data != []
    && s.path in s.names && s.names[s.path] == |s.data| - 1
    && (forall p :: p in s.names ==> s.names[p] < |s.data|)
    && (forall p, q :: p in s.names && q in s.names && s.names[p] == s.names[q] ==> p == q)
  }

  lemma RotatedNamed(s: State, cfg: Config, t: nat, o: Outcome)
    requires Named(s)
    ensures Named(Rotated(s, cfg, t, o))
  {
  }

  lemma AfterNamed(s: State, cfg: Config, e: Event)
    requires Named(s)
    ensures Named(After(s, cfg, e))
  {
    match e
    case Measurement(ms, failed) => EncodedKeeps(Logged(s, ms, false), cfg, ms, failed);
    case Observation(ms, pushed, failed) =>
      EncodedKeeps(Logged(s.(loki := s.loki && pushed), ms, s.loki && pushed), cfg, ms, failed);
    case LokiTick(ready) =>
    case Rotation(t, o) => RotatedNamed(s, cfg, t, o);
  }

  /** Over every run, failed calls or not, standard output has a name, and no two names lead to one file. */
  lemma {:induction false} RunNamed(loki: bool, cfg: Config, events: seq<Event>)
    ensures Named(Run(loki, cfg, events))
  {
    if events != [] {
      RunNamed(loki, cfg, events[..|events|-1]);
      AfterNamed(Run(loki, cfg, events[..|events|-1]), cfg, events[|events|-1]);
    }
  }

  /** Some name leads to the file. */
  ghost predicate Linked(s: State, i: nat) {
    exists p :: p in s.names && s.names[p] == i
  }

  predicate Later(stamps: seq<int>, i: nat)
    requires i < |stamps|
  {
    exists j :: i < j < |stamps| && stamps[j] == stamps[i]
  }

  /** A name is that of standard output or a stamp, and leads to the last file rotated with that stamp. */
  ghost predicate ByStamp(names: map<Path, nat>, stamps: seq<int>) {
    && (forall p :: p in names && p != [] ==> names[p] < |stamps| && p == [stamps[names[p]]])
    && (forall i: nat {:trigger stamps[i]} :: i < |stamps| ==> [stamps[i]] in names && names[[stamps[i]]] >= i)
  }

  /** Holds in every run where each file is created that should be. */
  ghost predicate Shelved(s: State) {
    Named(s) && s.path == [] && |s.stamps| == |s.data| - 1 && ByStamp(s.names, s.stamps)
  }

  lemma ByStampMore(names: map<Path, nat>, stamps: seq<int>, stamp: int)
    requires ByStamp(names, stamps)
    ensures ByStamp((names - {[]})[[stamp] := |stamps|][[] := |stamps| + 1], stamps + [stamp])
  {
    var names', stamps' := (names - {[]})[[stamp] := |stamps|][[] := |stamps| + 1], stamps + [stamp];
    forall i: nat | i < |stamps'| ensures [stamps'[i]] in names' && names'[[stamps'[i]]] >= i {
      if i < |stamps| {
        assert stamps'[i] == stamps[i];
      }
    }
  }

  lemma RotatedShelved(s: State, cfg: Config, t: nat, o: Outcome)
    requires Shelved(s) && o.created
    ensures Shelved(Rotated(s, cfg, t, o))
  {
    RotatedNamed(s, cfg, t, o);
    if Renames(s, cfg, o) {
      assert s.path + [Stamp(cfg, t)] == [Stamp(cfg, t)];
      ByStampMore(s.names, s.stamps, Stamp(cfg, t));
    }
  }

  lemma AfterShelved(s: State, cfg: Config, e: Event)
    requires Shelved(s) && (e.Rotation? ==> e.o.created)
    ensures Shelved(After(s, cfg, e))
  {
    match e
    case Measurement(ms, failed) => EncodedKeeps(Logged(s, ms, false), cfg, ms, failed);
    case Observation(ms, pushed, failed) =>
      EncodedKeeps(Logged(s.(loki := s.loki && pushed), ms, s.loki && pushed), cfg, ms, failed);
    case LokiTick(ready) =>
    case Rotation(t, o) => RotatedShelved(s, cfg, t, o);
  }

  predicate Creates(events: seq<Event>) {
    forall k :: 0 <= k < |events| && events[k].Rotation? ==> events[k].o.created
  }

  lemma {:induction false} RunShelved(loki: bool, cfg: Config, events: seq<Event>)
    requires Creates(events)
    ensures Shelved(Run(loki, cfg, events))
  {
    if events != [] {
      RunShelved(loki, cfg, events[..|events|-1]);
      AfterShelved(Run(loki, cfg, events[..|events|-1]), cfg, events[|events|-1]);
    }
  }

  /** A rotated file can still be found exactly when no later rotation carried the same stamp: renaming replaces. */
  lemma SurvivesUnlessStampRepeats(loki: bool, cfg: Config, events: seq<Event>, i: nat)
    requires Creates(events) && i < |Run(loki, cfg, events).stamps|
    ensures Linked(Run(loki, cfg, events), i) <==> !Later(Run(loki, cfg, events).stamps, i)
  {
    RunShelved(loki, cfg, events);
    var s := Run(loki, cfg, events);
    var p := [s.stamps[i]];
    var j := s.names[p];
    assert s.stamps[j] == s.stamps[i];
    if Linked(s, i) {
      var q :| q in s.names && s.names[q] == i;
      assert q == p;
      forall k | i < k < |s.stamps| ensures s.stamps[k] != s.stamps[i] {
        assert [s.stamps[k]] in s.names && s.names[[s.stamps[k]]] >= k;
      }
    }
  }

  // ---------------------------------------------------------------- when stamps repeat

  /** The times of the rotations that switched files, in order. */
  function SwitchTimes(loki: bool, cfg: Config, events: seq<Event>): (ts: seq<nat>)
  {
    if events == [] then []
    else
      var n := |events| - 1;
      var s, e := Run(loki, cfg, events[..n]), events[n];
      SwitchTimes(loki, cfg, events[..n]) + if e.Rotation? && e.o.created && Renames(s, cfg, e.o) then [e.t] else []
  }

  lemma {:induction false} StampsOfTimes(loki: bool, cfg: Config, events: seq<Event>)
    ensures var ts, stamps := SwitchTimes(loki, cfg, events), Run(loki, cfg, events).stamps;
            |ts| == |stamps| && forall k :: 0 <= k < |ts| ==> stamps[k] == Stamp(cfg, ts[k])
  {
    if events != [] {
      var n := |events| - 1;
      StampsOfTimes(loki, cfg, events[..n]);
      var s, e := Run(loki, cfg, events[..n]), events[n];
      match e
      case Measurement(ms, failed) => EncodedKeeps(Logged(s, ms, false), cfg, ms, failed);
      case Observation(ms, pushed, failed) =>
        EncodedKeeps(Logged(s.(loki := s.loki && pushed), ms, s.loki && pushed), cfg, ms, failed);
      case LokiTick(_) =>
      case Rotation(_, _) =>
    }
  }

  /** Each time is at least `gap` after the one before it. */
  ghost predicate Apart(ts: seq<nat>, gap: int) {
    forall i, j :: 0 <= i < j < |ts| ==> ts[i] + gap <= ts[j]
  }

  lemma LaterStamp(cfg: Config, a: nat, b: nat)
    requires cfg.interval >= SECOND && a + cfg.interval <= b
    ensures Stamp(cfg, a) < Stamp(cfg, b)
  {
  }

  /** For any duration given to the flag, rotations that keep the interval's distance never replace a file: all that was
      written can be found. Without a positive interval only Close rotates. */
  lemma SpacedRotationsSurvive(loki: bool, cfg: Config, d: int, events: seq<Event>, i: nat)
    requires Creates(events) && cfg.interval == Set(d)
    requires var ts := SwitchTimes(loki, cfg, events); if cfg.interval > 0 then Apart(ts, cfg.interval) else |ts| <= 1
    requires i < |Run(loki, cfg, events).data|
    ensures Linked(Run(loki, cfg, events), i)
  {
    var s, ts := Run(loki, cfg, events), SwitchTimes(loki, cfg, events);
    RunShelved(loki, cfg, events);
    if i < |s.stamps| {
      StampsOfTimes(loki, cfg, events);
      forall j | i < j < |s.stamps| ensures s.stamps[j] != s.stamps[i] {
        LaterStamp(cfg, ts[i], ts[j]);
      }
      SurvivesUnlessStampRepeats(loki, cfg, events, i);
    } else {
      assert s.names[s.path] == i;
    }
  }

  /** Close does not keep the distance. If it comes within the stamp's resolution of the last rotation, and its own
      rename and create succeed, what that rotation wrote can no longer be found. */
  lemma CloseReplacesLastFile(loki: bool, cfg: Config, events: seq<Event>, t: nat, o: Outcome)
    requires Creates(events) && o.created && Renames(Run(loki, cfg, events), cfg, o)
    requires SwitchTimes(loki, cfg, events) != []
    ensures var ts, s := SwitchTimes(loki, cfg, events), Run(loki, cfg, events + [Rotation(t, o)]);
            Linked(s, |ts| - 1) <==> Stamp(cfg, t) != Stamp(cfg, ts[|ts|-1])
  {
    var more := events + [Rotation(t, o)];
    RunMore(loki, cfg, events, Rotation(t, o));
    StampsOfTimes(loki, cfg, events);
    RunShelved(loki, cfg, events);
    var i := |SwitchTimes(loki, cfg, events)| - 1;
    var s := Run(loki, cfg, more);
    assert s.stamps[i+1] == Stamp(cfg, t);
    SurvivesUnlessStampRepeats(loki, cfg, more, i);
  }

  const SUCCESS := Outcome(true, true, true, true, true)

  lemma SwitchTimesMore(loki: bool, cfg: Config, events: seq<Event>, e: Event)
    ensures SwitchTimes(loki, cfg, events + [e]) ==
            SwitchTimes(loki, cfg, events) + if e.Rotation? && e.o.created && Renames(Run(loki, cfg, events), cfg, e.o) then [e.t] else []
  {
    var more := events + [e];
    assert more[..|more|-1] == events;
  }

  lemma OneBatch(s: State, cfg: Config, t: nat, m: Message)
    requires cfg.regular && s.cache == [m] && s.data == [[]]
    ensures var r := Rotated(s, cfg, t, SUCCESS); r.data == [[One(m)], []] && r.cache == [] && Renames(s, cfg, SUCCESS)
  {
    assert s.data[0] + [One(m)] == [One(m)];
    assert Append(s, One(m)).data == [[One(m)]];
  }

  lemma OneCached(cfg: Config, m: Message)
    requires cfg.interval > 0
    ensures Run(false, cfg, [Measurement([m], {})]).cache == [m] && Run(false, cfg, [Measurement([m], {})]).data == [[]]
    ensures SwitchTimes(false, cfg, [Measurement([m], {})]) == []
  {
    var none: seq<Event> := [];
    assert none + [Measurement([m], {})] == [Measurement([m], {})];
    RunMore(false, cfg, none, Measurement([m], {}));
    SwitchTimesMore(false, cfg, none, Measurement([m], {}));
    assert Run(false, cfg, none) == Start(false) && SwitchTimes(false, cfg, none) == [];
  }

  lemma FirstBatch(cfg: Config, m: Message, t: nat)
    requires cfg.interval > 0 && cfg.regular
    ensures var events := [Measurement([m], {}), Rotation(t, SUCCESS)];
            Run(false, cfg, events).data == [[One(m)], []] && Run(false, cfg, events).cache == [] && SwitchTimes(false, cfg, events) == [t]
  {
    var one, rotation := [Measurement([m], {})], Rotation(t, SUCCESS);
    OneCached(cfg, m);
    OneBatch(Run(false, cfg, one), cfg, t, m);
    RunMore(false, cfg, one, rotation);
    SwitchTimesMore(false, cfg, one, rotation);
    assert one + [rotation] == [Measurement([m], {}), rotation];
  }

  /** A minute's batch, rotated at the top of the minute, is replaced by a Close thirty seconds later. */
  lemma CloseWithinMinute(m: Message)
    ensures var cfg := Config(MINUTE, true);
            var events := [Measurement([m], {}), Rotation(MINUTE, SUCCESS)];
            && Run(false, cfg, events).data[0] == [One(m)]
            && !Linked(Run(false, cfg, events + [Rotation(MINUTE + 30 * SECOND, SUCCESS)]), 0)
  {
    var cfg := Config(MINUTE, true);
    var events := [Measurement([m], {}), Rotation(MINUTE, SUCCESS)];
    FirstBatch(cfg, m, MINUTE);
    CloseReplacesLastFile(false, cfg, events, MINUTE + 30 * SECOND, SUCCESS);
  }

  // ---------------------------------------------------------------- what a stamp shows

  lemma Nested(t: nat)
    ensures t / MINUTE == t / SECOND / 60 && t / HOUR == t / MINUTE / 60 && t / DAY == t / HOUR / 24
  {
  }

  lemma SameQuotient(a: nat, b: nat, k: nat)
    requires k > 0
    ensures a == b <==> a / k == b / k && a % k == b % k
  {
    assert a == k * (a / k) + a % k && b == k * (b / k) + b % k;
  }

  /** Two stamps are the same exactly when the days are, with an interval of less than a day the hours, of less than an hour
      the minutes, and of less than a minute the seconds. */
  lemma StampsAgreeIff(cfg: Config, t: nat, u: nat)
    ensures Stamp(cfg, t) == Stamp(cfg, u) <==>
            && t / 86_400_000_000_000 == u / 86_400_000_000_000
            && (cfg.interval < 86_400_000_000_000 ==> t / 3_600_000_000_000 % 24 == u / 3_600_000_000_000 % 24)
            && (cfg.interval < 3_600_000_000_000 ==> t / 60_000_000_000 % 60 == u / 60_000_000_000 % 60)
            && (cfg.interval < 60_000_000_000 ==> t / 1_000_000_000 % 60 == u / 1_000_000_000 % 60)
  {
    Nested(t);
    Nested(u);
    SameQuotient(t / HOUR, u / HOUR, 24);
    SameQuotient(t / MINUTE, u / MINUTE, 60);
    SameQuotient(t / SECOND, u / SECOND, 60);
  }
}
