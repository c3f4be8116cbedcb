/** The suppression of repeated log records in logs/observe.go, in terms of the records' groups and of the log's lines. */
module LogLines {
  import opened LogWindow

  /** Put in the whole match and the timestamp of `m`, and `a` is `m`. */
  predicate SameRest(a: Match, m: Match, ts: nat)
    requires ts < |m| && m != []
  {
    |a| == |m| && a[0 := m[0]][ts := m[ts]] == m
  }

  lemma SameRestIff(a: Match, m: Match, ts: nat)
    requires ts < |m| && m != []
    ensures SameRest(a, m, ts) <==> Same(m, a, ts)
  {
    if SameRest(a, m, ts) {
      var b := a[0 := m[0]][ts := m[ts]];
      forall i | 0 < i < |m| && i != ts ensures m[i] == a[i] {
        assert b[i] == a[i];
      }
    }
  }

  /** Whatever has been received before: a record is dropped if and only if one of the last three sent becomes this one when
      its whole match and its timestamp are put in. */
  lemma DroppedIff(ms: seq<Match>, m: Match, ts: nat)
    requires ts < |m| && m != []
    ensures var sent := Filter(ms, ts);
            Filter(ms + [m], ts) ==
            if exists k :: 0 <= k < |sent| && |sent| <= k + 3 && SameRest(sent[k], m, ts) then sent else sent + [m]
  {
    var sent := Filter(ms, ts);
    FilterMore(ms, m, ts);
    forall k | 0 <= k < |sent| ensures SameRest(sent[k], m, ts) <==> Same(m, sent[k], ts) {
      SameRestIff(sent[k], m, ts);
    }
  }

  /** A line that does not match, or on Linux one whose level is not to be reported, changes nothing. */
  lemma LineIgnored(lines: seq<Line>, l: Line, ts: nat, width: nat, linux: bool)
    requires (forall k :: 0 <= k < |lines| ==> WellMatched(lines[k], ts, width)) && WellMatched(l, ts, width)
    requires l.m == [] || l.m[0] == "" || (linux && !l.reported)
    ensures forall k :: 0 <= k < |lines + [l]| ==> WellMatched((lines + [l])[k], ts, width)
    ensures Queued(lines + [l], ts, width, linux) == Queued(lines, ts, width, linux)
  {
    assert (lines + [l])[..|lines|] == lines;
  }

  /** After any other line, one of the last three records sent is that of the line, but for the whole match and the
      timestamp. */
  lemma LineHeard(lines: seq<Line>, l: Line, ts: nat, width: nat, linux: bool)
    requires (forall k :: 0 <= k < |lines| ==> WellMatched(lines[k], ts, width)) && WellMatched(l, ts, width)
    requires l.m != [] && l.m[0] != "" && (linux ==> l.reported)
    ensures forall k :: 0 <= k < |lines + [l]| ==> WellMatched((lines + [l])[k], ts, width)
    ensures var sent := Filter(Queued(lines + [l], ts, width, linux), ts);
            exists k :: 0 <= k < |sent| && |sent| <= k + 3 && SameRest(sent[k], l.m, ts)
  {
    var q, m := Queued(lines, ts, width, linux), Normal(l.m, ts, linux);
    var sent, sent' := Filter(q, ts), Filter(q + [m], ts);
    assert (lines + [l])[..|lines|] == lines;
    assert Queued(lines + [l], ts, width, linux) == q + [m];
    FilterMore(q, m, ts);
    if Repeats(sent, m, ts) {
      var k :| 0 <= k < |sent| && |sent| <= k + 3 && Same(m, sent[k], ts);
      NormalSame(l.m, sent[k], ts, linux);
      SameRestIff(sent[k], l.m, ts);
      assert sent'[k] == sent[k];
    } else {
      NormalSame(l.m, m, ts, linux);
      SameRestIff(m, l.m, ts);
      assert sent'[|sent|] == m;
    }
  }

  lemma NormalSame(m: Match, a: Match, ts: nat, linux: bool)
    requires ts < |m| && Same(Normal(m, ts, linux), a, ts)
    ensures Same(m, a, ts)
  {
    forall i | 0 < i < |m| && i != ts ensures m[i] == a[i] {
      assert Normal(m, ts, linux)[i] == m[i];
    }
  }

  function Occurs(s: string, a: char): nat {
    if s == "" then 0 else Occurs(s[..|s|-1], a) + if s[|s|-1] == a then 1 else 0
  }

  lemma {:induction false} OccursFirst(s: string, a: char)
    requires s != ""
    ensures Occurs(s, a) == (if s[0] == a then 1 else 0) + Occurs(s[1..], a)
  {
    if |s| > 1 {
      OccursFirst(s[..|s|-1], a);
      assert s[..|s|-1][1..] == s[1..][..|s|-2];
    } else {
      assert s[..0] == "" && s[1..] == "";
    }
  }

  /** The replacement changes just the first `n` occurrences. */
  lemma {:induction false} ReplacesFirst(s: string, a: char, b: char, n: nat, i: nat)
    requires i < |s|
    ensures |Replace(s, a, b, n)| == |s|
    ensures Replace(s, a, b, n)[i] == if s[i] == a && Occurs(s[..i], a) < n then b else s[i]
  {
    if n > 0 {
      var n' := if s[0] == a then n - 1 else n;
      if i > 0 {
        ReplacesFirst(s[1..], a, b, n', i - 1);
        OccursFirst(s[..i], a);
        assert s[..i][1..] == s[1..][..i-1];
      } else {
        assert s[..0] == "";
        if |s| > 1 {
          ReplacesFirst(s[1..], a, b, n', 0);
        } else {
          assert s[1..] == "";
        }
      }
    }
  }

  lemma {:induction false} OccursReplaced(s: string, a: char, b: char, n: nat, c: char, i: nat)
    requires i <= |s| && c != a && c != b
    ensures |Replace(s, a, b, n)| == |s| && Occurs(Replace(s, a, b, n)[..i], c) == Occurs(s[..i], c)
  {
    var r := Replace(s, a, b, n);
    if i > 0 {
      OccursReplaced(s, a, b, n, c, i - 1);
      ReplacesFirst(s, a, b, n, i - 1);
      assert r[..i][..i-1] == r[..i-1] && s[..i][..i-1] == s[..i-1];
    } else if s != "" {
      ReplacesFirst(s, a, b, n, 0);
    }
  }

  /** On Linux the first two slashes of a timestamp become dashes and the first T a space; all else stays. */
  lemma NormalAt(m: Match, ts: nat, i: nat)
    requires ts < |m| && i < |m[ts]|
    ensures |Normal(m, ts, true)| == |m| && |Normal(m, ts, true)[ts]| == |m[ts]|
    ensures Normal(m, ts, true)[ts][i] ==
            if m[ts][i] == '/' && Occurs(m[ts][..i], '/') < 2 then '-'
            else if m[ts][i] == 'T' && Occurs(m[ts][..i], 'T') < 1 then ' '
            else m[ts][i]
  {
    var date := Replace(m[ts], '/', '-', 2);
    ReplacesFirst(m[ts], '/', '-', 2, i);
    OccursReplaced(m[ts], '/', '-', 2, 'T', i);
    ReplacesFirst(date, 'T', ' ', 1, i);
  }
}
