/** The encoder of message/encode.go: its loop, its cache and the files it rotates. */
module Encoder {
  import opened Delivery

  const MAX_DURATION := 0x7FFF_FFFF_FFFF_FFFF

  class MessageEncoder {
    const cfg: Config
    var loki: bool
    var cache: seq<Message>
    var names: map<Path, nat>
    var data: seq<seq<Value>>
    var path: Path
    ghost var log: seq<Entry>
    ghost var lost: seq<Message>
    ghost var stamps: seq<int>

    ghost function Now(): State
      reads this
    {
      State(loki, cache, names, data, path, log, lost, stamps)
    }

    /** `duration` is what the flag was given; `located` and `json` say whether standard output's path is known and ends
        in .json. */
    constructor (regular: bool, located: bool, json: bool, duration: int, ready: bool)
      ensures Now() == Start(ready)
      ensures cfg.regular == regular
      ensures !regular ==> cfg.interval == 0
      ensures regular && located && json ==> cfg.interval != 0
      ensures regular && (duration != 0 || !located || !json) ==> cfg.interval == Set(duration)
      ensures cfg.interval > 0 ==> cfg.interval >= SECOND
    {
      var rotate := Set(duration);
      if regular {
        if located && json && rotate == 0 {
          rotate := MAX_DURATION;
        }
      } else {
        rotate := 0;
      }
      cfg := Config(rotate, regular);
      loki, cache, names, data, path := ready, [], map[[] := 0], [[]], [];
      log, lost, stamps := [], [], [];
    }

    /** Writes a JSON value to standard output. */
    method Write(v: Value)
      requires data != []
      modifies this`data
      ensures Now() == Append(old(Now()), v)
    {
      var last := |data| - 1;
      data := data[last := data[last] + [v]];
    }

    method FileEncode(ms: seq<Message>, failed: set<Message>)
      requires data != []
      modifies this`data, this`cache, this`lost
      ensures Now() == Encoded(old(Now()), cfg, ms, failed)
    {
      if cfg.interval == 0 {
        var k := 0;
        while k < |ms|
          invariant k <= |ms| && data != []
          invariant Now() == Stream(old(Now()), ms[..k], failed)
        {
          assert ms[..k+1][..k] == ms[..k];
          if ms[k] in failed {
            lost := lost + [ms[k]];
          } else {
            Write(One(ms[k]));
          }
          k := k + 1;
        }
        assert ms[..|ms|] == ms;
      } else {
        cache := cache + ms;
      }
    }

    method Rotate(t: nat, o: Outcome)
      requires data != []
      modifies this`data, this`cache, this`lost, this`names, this`path, this`stamps
      ensures Now() == Rotated(old(Now()), cfg, t, o)
    {
      if |cache| > 0 {
        var i := if |cache| == 1 then One(cache[0]) else Many(cache);
        if o.encoded {
          Write(i);
        } else {
          lost := lost + cache;
        }
        cache := [];
        if !o.encoded {
          return;
        }
      }
      if !o.statted || !cfg.regular || !o.located {
        return;
      }
      var newpath := path + [Stamp(cfg, t)];
      if !o.renamed {
        return;
      }
      names := (names - {path})[newpath := |data| - 1];
      if !o.created {
        path := newpath;
        return;
      }
      names := names[path := |data|];
      data := data + [[]];
      stamps := stamps + [Stamp(cfg, t)];
    }

    method Close(t: nat, o: Outcome)
      requires data != []
      modifies this`data, this`cache, this`lost, this`names, this`path, this`stamps
      ensures Now() == Rotated(old(Now()), cfg, t, o) && cache == []
    {
      Rotate(t, o);
    }

    /** One turn of the loop's select. */
    method Receive(e: Event)
      requires data != []
      modifies this
      ensures Now() == After(old(Now()), cfg, e)
    {
      match e
      case Measurement(ms, failed) =>
        log := log + Entries(ms, false);
        FileEncode(ms, failed);
      case Observation(ms, pushed, failed) =>
        if loki {
          loki := pushed;
        }
        log := log + Entries(ms, loki);
        if !loki {
          FileEncode(ms, failed);
        }
      case LokiTick(ready) =>
        if !loki {
          loki := ready;
        }
      case Rotation(t, o) => Rotate(t, o);
    }

    /** The loop, up to its end at Close: every message of the run has gone to Loki or to a file, in the order it was
        received, if no encoding failed. */
    method Encode(events: seq<Event>, t: nat, o: Outcome)
      requires Now() == Start(loki)
      modifies this
      ensures Now() == Run(old(loki), cfg, events + [Rotation(t, o)])
      ensures cache == [] && Received(log) == AllMessages(events)
      ensures o.encoded && (forall k :: 0 <= k < |events| ==> Encodes(events[k])) ==> Written(data) == Filed(log)
    {
      var k := 0;
      while k < |events|
        invariant k <= |events| && data != []
        invariant Now() == Run(old(loki), cfg, events[..k])
      {
        assert events[..k+1][..k] == events[..k];
        Receive(events[k]);
        k := k + 1;
      }
      assert events[..|events|] == events;
      Close(t, o);
      RunMore(old(loki), cfg, events, Rotation(t, o));
      CloseWritesAll(old(loki), cfg, events, t, o);
    }
  }
}
