/** The suppression of repeated log records in logs/observe.go, through a window of the last three records sent. */
module LogWindow {

  /** The groups of a regular expression's match; empty if the line does not match. */
  type Match = seq<string>

  // ---------------------------------------------------------------- what is filtered

  /** Equal in all groups but the whole match and the timestamp. */
  predicate Same(a: Match, b: Match, ts: nat) {
    |a| == |b| && forall i :: 0 < i < |a| && i != ts ==> a[i] == b[i]
  }

  /** One of the last three records sent is the same as `m`. */
  predicate Repeats(sent: seq<Match>, m: Match, ts: nat) {
    exists k :: 0 <= k < |sent| && |sent| <= k + 3 && Same(m, sent[k], ts)
  }

  function Filter(ms: seq<Match>, ts: nat): seq<Match> {
    if ms == [] then []
    else
      var sent, m := Filter(ms[..|ms|-1], ts), ms[|ms|-1];
      if Repeats(sent, m, ts) then sent else sent + [m]
  }

  /** The three slots after sending: the last records sent, newest first; the empty match fills the slots not yet used. */
  function Window(sent: seq<Match>): (w: seq<Match>)
    ensures |w| == 3
  {
    seq(3, i requires 0 <= i < 3 => if i < |sent| then sent[|sent|-1-i] else [])
  }

  // ---------------------------------------------------------------- the parser

  function Replace(s: string, a: char, b: char, n: nat): string {
    if n == 0 || s == "" then s
    else if s[0] == a then [b] + Replace(s[1..], a, b, n - 1)
    else [s[0]] + Replace(s[1..], a, b, n)
  }

  /** On Linux the date's separators are changed before the record is queued. */
  function Normal(m: Match, ts: nat, linux: bool): Match
    requires ts < |m|
  {
    if linux then m[ts := Replace(Replace(m[ts], '/', '-', 2), 'T', ' ', 1)] else m
  }

  /** A line's match, and whether its level is one to report. */
  datatype Line = Line(m: Match, reported: bool)

  predicate Passes(l: Line, linux: bool) {
    l.m != [] && l.m[0] != "" && (linux ==> l.reported)
  }

  /** A regular expression's matches all have as many groups as it has, among them the timestamp. */
  predicate WellMatched(l: Line, ts: nat, width: nat) {
    ts < width && (l.m == [] || |l.m| == width)
  }

  function Queued(lines: seq<Line>, ts: nat, width: nat, linux: bool): seq<Match>
    requires forall k :: 0 <= k < |lines| ==> WellMatched(lines[k], ts, width)
  {
    if lines == [] then []
    else
      var before, l := Queued(lines[..|lines|-1], ts, width, linux), lines[|lines|-1];
      assert WellMatched(l, ts, width);
      if Passes(l, linux) then before + [Normal(l.m, ts, linux)] else before
  }

  class LogParser {
    const ts: nat
    const dedups: array<Match>
    var sent: seq<Match>

    predicate Valid()
      reads this, dedups
    {
      dedups.Length == 3 && dedups[..] == Window(sent)
    }

    constructor (ts: nat)
      ensures Valid() && sent == [] && this.ts == ts && fresh(dedups)
    {
      this.ts := ts;
      dedups := new Match[3](i => []);
      sent := [];
    }

    method IsSame(m: Match, dedup: Match) returns (same: bool)
      ensures same == Same(m, dedup, ts)
    {
      if |m| != |dedup| {
        return false;
      }
      var i := 0;
      while i < |m|
        invariant i <= |m|
        invariant forall j :: 0 < j < i && j != ts ==> m[j] == dedup[j]
      {
        if i != 0 && i != ts && m[i] != dedup[i] {
          return false;
        }
        i := i + 1;
      }
      return true;
    }

    /** Shifts the window by one, in place, and puts the record in front. */
    method Shift(m: Match)
      requires dedups.Length == 3
      modifies dedups
      ensures dedups[..] == [m] + old(dedups[..2])
    {
      var i := dedups.Length - 1;
      while i != 0
        invariant 0 <= i < 3
        invariant forall j :: 0 <= j <= i ==> dedups[j] == old(dedups[j])
        invariant forall j :: i < j < 3 ==> dedups[j] == old(dedups[j-1])
        decreases i
      {
        dedups[i] := dedups[i-1];
        i := i - 1;
      }
      dedups[0] := m;
    }

    method Seen(m: Match) returns (seen: bool)
      requires Valid() && m != []
      ensures seen == Repeats(sent, m, ts)
    {
      ghost var w := dedups[..];
      var k := 0;
      while k < dedups.Length
        invariant 0 <= k <= 3
        invariant forall j :: 0 <= j < k ==> !Same(m, w[j], ts)
      {
        var dedup := dedups[k];
        assert dedup == w[k];
        seen := IsSame(m, dedup);
        if seen {
          WindowRepeats(sent, m, ts, k);
          return;
        }
        k := k + 1;
      }
      NoneRepeats(sent, m, ts);
      seen := false;
    }

    method Queue(m: Match)
      requires Valid() && m != []
      modifies this`sent, dedups
      ensures Valid()
      ensures sent == if Repeats(old(sent), m, ts) then old(sent) else old(sent) + [m]
    {
      var seen := Seen(m);
      if seen {
        return;
      }
      WindowMore(sent, m);
      assert dedups[..2] == dedups[..][..2];
      Shift(m);
      sent := sent + [m];
    }

    /** The loop's body, after the records `before`. */
    method Read(l: Line, width: nat, linux: bool, ghost before: seq<Match>)
      requires Valid() && sent == Filter(before, ts) && WellMatched(l, ts, width)
      modifies this`sent, dedups
      ensures Valid() && sent == Filter(if Passes(l, linux) then before + [Normal(l.m, ts, linux)] else before, ts)
    {
      if Passes(l, linux) {
        FilterMore(before, Normal(l.m, ts, linux), ts);
        Queue(Normal(l.m, ts, linux));
      }
    }

    /** The loop over the log's lines: what is sent is the filtered stream of the records that pass. */
    method Parse(lines: seq<Line>, width: nat, linux: bool)
      requires Valid() && sent == []
      requires forall k :: 0 <= k < |lines| ==> WellMatched(lines[k], ts, width)
      modifies this`sent, dedups
      ensures Valid() && sent == Filter(Queued(lines, ts, width, linux), ts)
    {
      var k := 0;
      while k < |lines|
        invariant k <= |lines| && Valid()
        invariant sent == Filter(Queued(lines[..k], ts, width, linux), ts)
      {
        var l := lines[k];
        assert WellMatched(l, ts, width);
        QueuedMore(lines, k, ts, width, linux);
        Read(l, width, linux, Queued(lines[..k], ts, width, linux));
        k := k + 1;
      }
      assert lines[..|lines|] == lines;
    }
  }

  lemma QueuedMore(lines: seq<Line>, k: nat, ts: nat, width: nat, linux: bool)
    requires k < |lines| && WellMatched(lines[k], ts, width)
    requires forall j :: 0 <= j < |lines| ==> WellMatched(lines[j], ts, width)
    ensures Queued(lines[..k+1], ts, width, linux) ==
            var q := Queued(lines[..k], ts, width, linux); if Passes(lines[k], linux) then q + [Normal(lines[k].m, ts, linux)] else q
  {
    assert lines[..k+1][..k] == lines[..k];
  }

  lemma FilterMore(ms: seq<Match>, m: Match, ts: nat)
    ensures Filter(ms + [m], ts) == if Repeats(Filter(ms, ts), m, ts) then Filter(ms, ts) else Filter(ms, ts) + [m]
  {
    assert (ms + [m])[..|ms|] == ms;
  }

  // ---------------------------------------------------------------- the window

  lemma WindowRepeats(sent: seq<Match>, m: Match, ts: nat, k: nat)
    requires k < 3 && m != [] && Same(m, Window(sent)[k], ts)
    ensures Repeats(sent, m, ts)
  {
    assert Same(m, sent[|sent|-1-k], ts);
  }

  lemma NoneRepeats(sent: seq<Match>, m: Match, ts: nat)
    requires forall j :: 0 <= j < 3 ==> !Same(m, Window(sent)[j], ts)
    ensures !Repeats(sent, m, ts)
  {
    forall k | 0 <= k < |sent| && |sent| <= k + 3 ensures !Same(m, sent[k], ts) {
      assert Window(sent)[|sent|-1-k] == sent[k];
    }
  }

  lemma WindowMore(sent: seq<Match>, m: Match)
    ensures Window(sent + [m]) == [m] + Window(sent)[..2]
  {
  }

  // ---------------------------------------------------------------- what the filter promises

  /** No record is the same as one of the three before it. */
  ghost predicate Spread(s: seq<Match>, ts: nat) {
    forall i, j :: 0 <= i < j < |s| && j <= i + 3 ==> !Same(s[j], s[i], ts)
  }

  /** Records sent differ from the three sent before them. */
  lemma {:induction false} SentSpread(ms: seq<Match>, ts: nat)
    ensures Spread(Filter(ms, ts), ts)
  {
    if ms != [] {
      SentSpread(ms[..|ms|-1], ts);
    }
  }

  /** The filter leaves a stream alone exactly when no record is the same as one of the three before it. */
  lemma {:induction false} UnchangedIffSpread(s: seq<Match>, ts: nat)
    ensures Filter(s, ts) == s <==> Spread(s, ts)
  {
    SentSpread(s, ts);
    if Spread(s, ts) && s != [] {
      var n := |s| - 1;
      LastIsNew(s, ts);
      UnchangedIffSpread(s[..n], ts);
      assert s[..n] + [s[n]] == s;
    }
  }

  lemma LastIsNew(s: seq<Match>, ts: nat)
    requires Spread(s, ts) && s != []
    ensures Spread(s[..|s|-1], ts) && !Repeats(s[..|s|-1], s[|s|-1], ts)
  {
  }

  /** Filtering an already filtered stream changes nothing. */
  lemma {:induction false} Idempotent(ms: seq<Match>, ts: nat)
    ensures Filter(Filter(ms, ts), ts) == Filter(ms, ts)
  {
    SentSpread(ms, ts);
    UnchangedIffSpread(Filter(ms, ts), ts);
  }

  /** What is sent early stays: each prefix of the stream gives a prefix of what is sent. */
  lemma {:induction false} SentGrows(ms: seq<Match>, ts: nat, k: nat)
    requires k <= |ms|
    ensures Filter(ms[..k], ts) <= Filter(ms, ts)
  {
    if k == |ms| {
      assert ms[..k] == ms;
    } else {
      assert ms[..|ms|-1][..k] == ms[..k];
      SentGrows(ms[..|ms|-1], ts, k);
    }
  }

  /** Record `k` is dropped exactly when it repeats one of the last three sent before it; otherwise it is sent, next. */
  lemma SentOrRepeats(ms: seq<Match>, ts: nat, k: nat)
    requires k < |ms|
    ensures var before := Filter(ms[..k], ts);
            if Repeats(before, ms[k], ts) then Filter(ms[..k+1], ts) == before
            else before + [ms[k]] <= Filter(ms, ts)
  {
    assert ms[..k+1][..k] == ms[..k];
    SentGrows(ms, ts, k + 1);
  }

  lemma SameChain(a: Match, b: Match, c: Match, ts: nat)
    requires Same(a, b, ts) && Same(b, c, ts)
    ensures Same(b, a, ts) && Same(a, c, ts)
  {
  }

  /** However long a stream goes on repeating the last three records sent, nothing more is sent. */
  lemma {:induction false} RepeatsSendNothing(ms: seq<Match>, more: seq<Match>, ts: nat)
    requires forall k :: 0 <= k < |more| ==> Repeats(Filter(ms, ts), more[k], ts)
    ensures Filter(ms + more, ts) == Filter(ms, ts)
  {
    if more == [] {
      assert ms + more == ms;
    } else {
      var n := |more| - 1;
      RepeatsSendNothing(ms, more[..n], ts);
      assert (ms + more)[..|ms + more|-1] == ms + more[..n];
      assert Repeats(Filter(ms, ts), more[n], ts);
    }
  }

  ghost predicate SameAll(f: seq<Match>, g: seq<Match>, ts: nat) {
    |f| == |g| && forall k :: 0 <= k < |f| ==> Same(f[k], g[k], ts)
  }

  lemma SameAllMore(f: seq<Match>, g: seq<Match>, m: Match, m': Match, ts: nat)
    requires SameAll(f, g, ts) && Same(m, m', ts)
    ensures SameAll(f + [m], g + [m'], ts)
  {
  }

  lemma SameAllBack(f: seq<Match>, g: seq<Match>, ts: nat)
    requires SameAll(f, g, ts)
    ensures SameAll(g, f, ts)
  {
    forall k | 0 <= k < |g| ensures Same(g[k], f[k], ts) {
      SameChain(f[k], g[k], g[k], ts);
    }
  }

  /** Which of the same records are received makes no difference to how many are sent, or to their contents beyond the
      whole match and the timestamp. */
  lemma {:induction false} SameStreams(a: seq<Match>, b: seq<Match>, ts: nat)
    requires |a| == |b| && forall k :: 0 <= k < |a| ==> Same(a[k], b[k], ts)
    ensures SameAll(Filter(a, ts), Filter(b, ts), ts)
  {
    if a != [] {
      var n := |a| - 1;
      SameStreams(a[..n], b[..n], ts);
      SameNext(a[..n], b[..n], a[n], b[n], ts);
      assert a == a[..n] + [a[n]] && b == b[..n] + [b[n]];
    }
  }

  lemma SameNext(a: seq<Match>, b: seq<Match>, m: Match, m': Match, ts: nat)
    requires SameAll(Filter(a, ts), Filter(b, ts), ts) && Same(m, m', ts)
    ensures SameAll(Filter(a + [m], ts), Filter(b + [m'], ts), ts)
  {
    var f, g := Filter(a, ts), Filter(b, ts);
    SameRepeats(f, g, m, m', ts);
    SameAllBack(f, g, ts);
    SameChain(m, m', m', ts);
    SameRepeats(g, f, m', m, ts);
    FilterMore(a, m, ts);
    FilterMore(b, m', ts);
    SameAllMore(f, g, m, m', ts);
  }

  lemma SameRepeats(f: seq<Match>, g: seq<Match>, m: Match, m': Match, ts: nat)
    requires SameAll(f, g, ts) && Same(m, m', ts)
    ensures Repeats(f, m, ts) ==> Repeats(g, m', ts)
  {
    if Repeats(f, m, ts) {
      var k :| 0 <= k < |f| && |f| <= k + 3 && Same(m, f[k], ts);
      SameChain(m, f[k], g[k], ts);
      SameChain(m', m, g[k], ts);
      assert Same(m', g[k], ts);
    }
  }
}
