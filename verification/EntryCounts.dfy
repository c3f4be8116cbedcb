/** How many entries the resolution of process/connection.go leaves for each connection. */
module EntryCounts {
  import opened Collections
  import opened ProcessTypes
  import opened Connections
  import opened PeerResolution

  // ---------------------------------------------------------------- counting

  function Power(b: nat, e: nat): nat {
    if e == 0 then 1 else b * Power(b, e - 1)
  }

  function Occurrences(s: seq<Pid>, x: Pid): nat {
    multiset(s)[x]
  }

  /** The entries equal to `c`. */
  function Entries(cs: seq<Connection>, c: Connection): nat {
    multiset(cs)[c]
  }

  predicate Alike(c: Connection, c': Connection) {
    c'.typ == c.typ && c'.self == c.self && c'.peer.name == c.peer.name
  }

  /** The entries that differ from `c` at most in the peer's pid. */
  function Kin(cs: seq<Connection>, c: Connection): nat {
    if cs == [] then 0 else Kin(cs[..|cs|-1], c) + if Alike(c, cs[|cs|-1]) then 1 else 0
  }

  lemma {:induction false} KinConcat(a: seq<Connection>, b: seq<Connection>, c: Connection)
    ensures Kin(a + b, c) == Kin(a, c) + Kin(b, c)
  {
    if b == [] {
      assert a + b == a;
    } else {
      assert (a + b)[..|a + b|-1] == a + b[..|b|-1];
      KinConcat(a, b[..|b|-1], c);
    }
  }

  lemma {:induction false} KinSame(a: seq<Connection>, b: seq<Connection>, c: Connection)
    requires |a| == |b| && forall i :: 0 <= i < |a| ==> Alike(a[i], b[i])
    ensures Kin(a, c) == Kin(b, c)
  {
    if a != [] {
      KinSame(a[..|a|-1], b[..|b|-1], c);
    }
  }

  // ---------------------------------------------------------------- one pass over a list

  lemma {:induction false} CopiesCount(e: Connection, pids: seq<Pid>, c: Connection)
    ensures Kin(Copies(e, pids), c) == if Alike(c, e) then |pids| else 0
    ensures Entries(Copies(e, pids), c) == if Alike(c, e) then Occurrences(pids, c.peer.pid) else 0
  {
    var cs := Copies(e, pids);
    if pids != [] {
      var front, last := pids[..|pids|-1], pids[|pids|-1];
      CopiesCount(e, front, c);
      assert cs[..|pids|-1] == Copies(e, front);
      assert cs == Copies(e, front) + [Retarget(e, last)];
      assert pids == front + [last];
    }
  }

  /** The first holder's share and that of the others. */
  lemma Shares(a: nat, rest: nat, first: nat, all: nat, total: nat)
    requires all == first + rest && first <= 1 && total == rest * a
    ensures (if first == 1 then a else 0) + total == a * all == all * a
  {
  }

  lemma {:induction false} DupsKin(cs: seq<Connection>, name: string, pids: seq<Pid>, c: Connection)
    ensures Kin(Dups(cs, name, pids), c) == if c.peer.name == name then Kin(cs, c) * |pids| else 0
  {
    if cs != [] {
      var front, last := cs[..|cs|-1], cs[|cs|-1];
      DupsKin(front, name, pids, c);
      if last.peer.name == name {
        KinConcat(Dups(front, name, pids), Copies(last, pids), c);
        CopiesCount(last, pids, c);
        if Alike(c, last) {
          Shares(|pids|, Kin(front, c), 1, Kin(cs, c), Kin(Dups(front, name, pids), c));
        }
      }
    }
  }

  lemma {:induction false} DupsEntries(cs: seq<Connection>, name: string, pids: seq<Pid>, c: Connection)
    ensures Entries(Dups(cs, name, pids), c) == if c.peer.name == name then Kin(cs, c) * Occurrences(pids, c.peer.pid) else 0
  {
    if cs != [] {
      var front, last := cs[..|cs|-1], cs[|cs|-1];
      DupsEntries(front, name, pids, c);
      if last.peer.name == name {
        CopiesCount(last, pids, c);
        if Alike(c, last) {
          Shares(Occurrences(pids, c.peer.pid), Kin(front, c), 1, Kin(cs, c), Entries(Dups(front, name, pids), c));
        }
      }
    }
  }

  lemma HeadsCount(cs: seq<Connection>, name: string, self: Pid, c: Connection)
    ensures Kin(Heads(cs, name, self), c) == Kin(cs, c)
    ensures Entries(Heads(cs, name, self), c) ==
            if c.peer.name != name then Entries(cs, c) else if c.peer.pid == self then Kin(cs, c) else 0
  {
    KinSame(Heads(cs, name, self), cs, c);
    HeadsEntries(cs, name, self, c);
  }

  lemma {:induction false} HeadsEntries(cs: seq<Connection>, name: string, self: Pid, c: Connection)
    ensures Entries(Heads(cs, name, self), c) ==
            if c.peer.name != name then Entries(cs, c) else if c.peer.pid == self then Kin(cs, c) else 0
  {
    if cs != [] {
      var front, last := cs[..|cs|-1], cs[|cs|-1];
      HeadsEntries(front, name, self, c);
      HeadsMore(front, last, name, self);
      assert cs == front + [last];
    }
  }

  lemma HeadsMore(cs: seq<Connection>, c: Connection, name: string, self: Pid)
    ensures Heads(cs + [c], name, self) == Heads(cs, name, self) + [if c.peer.name == name then Retarget(c, self) else c]
  {
  }

  lemma HolderSplit(selves: seq<Pid>, pid: Pid)
    requires selves != []
    ensures Occurrences(selves, pid) == (if pid == selves[0] then 1 else 0) + Occurrences(selves[1..], pid)
  {
    assert selves == [selves[0]] + selves[1..];
  }

  lemma PassParts(cs: seq<Connection>, name: string, selves: seq<Pid>, c: Connection)
    requires selves != []
    ensures Kin(Pass(cs, name, selves), c) == Kin(Heads(cs, name, selves[0]), c) + Kin(Dups(cs, name, selves[1..]), c)
    ensures Entries(Pass(cs, name, selves), c) == Entries(Heads(cs, name, selves[0]), c) + Entries(Dups(cs, name, selves[1..]), c)
  {
    KinConcat(Heads(cs, name, selves[0]), Dups(cs, name, selves[1..]), c);
  }

  /** One pass for a name gives each of its entries one copy per holder listed. */
  lemma PassKin(cs: seq<Connection>, name: string, selves: seq<Pid>, c: Connection)
    requires selves != [] && c.peer.name == name
    ensures Kin(Pass(cs, name, selves), c) == Kin(cs, c) * |selves|
  {
    PassParts(cs, name, selves, c);
    HeadsCount(cs, name, selves[0], c);
    DupsKin(cs, name, selves[1..], c);
    Commute(Kin(cs, c), |selves[1..]|);
    Shares(Kin(cs, c), |selves[1..]|, 1, |selves|, Kin(Dups(cs, name, selves[1..]), c));
  }

  lemma PassEntries(cs: seq<Connection>, name: string, selves: seq<Pid>, c: Connection)
    requires selves != [] && c.peer.name == name
    ensures Entries(Pass(cs, name, selves), c) == Kin(cs, c) * Occurrences(selves, c.peer.pid)
  {
    var k, rest := Kin(cs, c), Occurrences(selves[1..], c.peer.pid);
    PassParts(cs, name, selves, c);
    HeadsCount(cs, name, selves[0], c);
    DupsEntries(cs, name, selves[1..], c);
    HolderSplit(selves, c.peer.pid);
    Commute(k, rest);
    Shares(k, rest, if c.peer.pid == selves[0] then 1 else 0, Occurrences(selves, c.peer.pid), Entries(Dups(cs, name, selves[1..]), c));
  }

  lemma Commute(a: nat, b: nat)
    ensures a * b == b * a
  {
  }

  lemma PassElsewhere(cs: seq<Connection>, name: string, selves: seq<Pid>, c: Connection)
    requires selves != [] && c.peer.name != name
    ensures Kin(Pass(cs, name, selves), c) == Kin(cs, c) && Entries(Pass(cs, name, selves), c) == Entries(cs, c)
  {
    PassParts(cs, name, selves, c);
    HeadsCount(cs, name, selves[0], c);
    DupsKin(cs, name, selves[1..], c);
    DupsEntries(cs, name, selves[1..], c);
  }

  // ---------------------------------------------------------------- one key

  lemma Rearrange(a: nat, w: nat, k: nat)
    ensures a * w * k == a * (k * w)
  {
  }

  /** A pid listed n times under a key whose endpoint has k holders, counted with repetition, gets k to the power n
      entries for each connection it had to that peer. */
  lemma {:induction false} KeyKin(m: EpMap, peers: seq<Pid>, name: string, selves: seq<Pid>, p: Pid, c: Connection)
    requires selves != [] && p in m && c.peer.name == name
    ensures p in ResolvePeers(m, peers, name, selves)
    ensures Kin(ResolvePeers(m, peers, name, selves)[p], c) == Kin(m[p], c) * Power(|selves|, Occurrences(peers, p))
  {
    if peers != [] {
      var front, last := peers[..|peers|-1], peers[|peers|-1];
      assert peers == front + [last];
      KeyKin(m, front, name, selves, p, c);
      if last == p {
        PassKin(ResolvePeers(m, front, name, selves)[p], name, selves, c);
        Rearrange(Kin(m[p], c), Power(|selves|, Occurrences(front, p)), |selves|);
      }
    }
  }

  lemma {:induction false} KeyEntries(m: EpMap, peers: seq<Pid>, name: string, selves: seq<Pid>, p: Pid, c: Connection)
    requires selves != [] && p in m && c.peer.name == name
    ensures p in ResolvePeers(m, peers, name, selves)
    ensures Entries(ResolvePeers(m, peers, name, selves)[p], c) ==
            if Occurrences(peers, p) == 0 then Entries(m[p], c)
            else Kin(m[p], c) * Power(|selves|, Occurrences(peers, p) - 1) * Occurrences(selves, c.peer.pid)
  {
    if peers != [] {
      var front, last := peers[..|peers|-1], peers[|peers|-1];
      assert peers == front + [last];
      assert Occurrences(peers, p) == Occurrences(front, p) + if last == p then 1 else 0;
      if last == p {
        KeyKin(m, front, name, selves, p, c);
        PassEntries(ResolvePeers(m, front, name, selves)[p], name, selves, c);
      } else {
        KeyEntries(m, front, name, selves, p, c);
      }
    }
  }

  lemma {:induction false} KeyElsewhere(m: EpMap, peers: seq<Pid>, name: string, selves: seq<Pid>, p: Pid, c: Connection)
    requires selves != [] && p in m && c.peer.name != name
    ensures p in ResolvePeers(m, peers, name, selves)
    ensures Kin(ResolvePeers(m, peers, name, selves)[p], c) == Kin(m[p], c)
    ensures Entries(ResolvePeers(m, peers, name, selves)[p], c) == Entries(m[p], c)
  {
    if peers != [] {
      var front := peers[..|peers|-1];
      KeyElsewhere(m, front, name, selves, p, c);
      PassElsewhere(ResolvePeers(m, front, name, selves)[p], name, selves, c);
    }
  }

  // ---------------------------------------------------------------- the whole visit

  /** What a visit of one key multiplies a process' entries for a name by. */
  function KeyFactor(eps: EpIndex, ep: EpKey, p: Pid, name: string): nat {
    if Hits(eps, ep, p, name) then Power(|eps[HolderKey(ep)]|, Occurrences(eps[ep], p)) else 1
  }

  function Factor(eps: EpIndex, order: seq<EpKey>, p: Pid, name: string): nat {
    if order == [] then 1 else Factor(eps, order[..|order|-1], p, name) * KeyFactor(eps, order[|order|-1], p, name)
  }

  /** The entries that a connection has grown to before the last pass that reaches it. */
  function Before(eps: EpIndex, order: seq<EpKey>, p: Pid, name: string): nat
    requires LastHit(eps, order, p, name).Some?
  {
    var front, ep := order[..|order|-1], order[|order|-1];
    if Hits(eps, ep, p, name) then Factor(eps, front, p, name) * Power(|eps[HolderKey(ep)]|, Occurrences(eps[ep], p) - 1)
    else Before(eps, front, p, name)
  }

  lemma OneKeyCount(m: EpMap, eps: EpIndex, ep: EpKey, p: Pid, c: Connection)
    requires p in m
    ensures p in ResolveKey(m, eps, ep)
    ensures Kin(ResolveKey(m, eps, ep)[p], c) == Kin(m[p], c) * KeyFactor(eps, ep, p, c.peer.name)
    ensures Hits(eps, ep, p, c.peer.name) ==>
              Entries(ResolveKey(m, eps, ep)[p], c)
              == Kin(m[p], c) * Power(|eps[HolderKey(ep)]|, Occurrences(eps[ep], p) - 1) * Occurrences(eps[HolderKey(ep)], c.peer.pid)
    ensures !Hits(eps, ep, p, c.peer.name) ==> Entries(ResolveKey(m, eps, ep)[p], c) == Entries(m[p], c)
  {
    if Effective(eps, ep) {
      assert p in eps[ep] <==> Occurrences(eps[ep], p) > 0;
      if c.peer.name == ep.peer {
        KeyKin(m, eps[ep], ep.peer, eps[HolderKey(ep)], p, c);
        KeyEntries(m, eps[ep], ep.peer, eps[HolderKey(ep)], p, c);
      } else {
        KeyElsewhere(m, eps[ep], ep.peer, eps[HolderKey(ep)], p, c);
      }
    }
  }

  /** For every visit, the entries of a process for a connection multiply by the holders of each key that names its peer,
      once for each time the key lists the process: keys of several types, and pids listed again, multiply on. */
  lemma {:induction false} ResolutionGrowth(m: EpMap, eps: EpIndex, order: seq<EpKey>, p: Pid, c: Connection)
    requires p in m
    ensures p in ResolveAll(m, eps, order)
    ensures Kin(ResolveAll(m, eps, order)[p], c) == Kin(m[p], c) * Factor(eps, order, p, c.peer.name)
  {
    if order != [] {
      var front, ep := order[..|order|-1], order[|order|-1];
      ResolutionGrowth(m, eps, front, p, c);
      OneKeyCount(ResolveAll(m, eps, front), eps, ep, p, c);
      Rearrange(Kin(m[p], c), Factor(eps, front, p, c.peer.name), KeyFactor(eps, ep, p, c.peer.name));
    }
  }

  /** Exactly how often each entry occurs in the end. */
  lemma {:induction false} EntryCount(m: EpMap, eps: EpIndex, order: seq<EpKey>, p: Pid, c: Connection)
    requires p in m
    ensures p in ResolveAll(m, eps, order)
    ensures Entries(ResolveAll(m, eps, order)[p], c) ==
            match LastHit(eps, order, p, c.peer.name)
            case None => Entries(m[p], c)
            case Some(ep) =>
              Kin(m[p], c) * Before(eps, order, p, c.peer.name) * Occurrences(eps[HolderKey(ep)], c.peer.pid)
  {
    if order != [] {
      var front, ep := order[..|order|-1], order[|order|-1];
      var name := c.peer.name;
      EntryCount(m, eps, front, p, c);
      ResolutionGrowth(m, eps, front, p, c);
      OneKeyCount(ResolveAll(m, eps, front), eps, ep, p, c);
      if Hits(eps, ep, p, name) {
        Regrouped(Kin(m[p], c), Factor(eps, front, p, name), Power(|eps[HolderKey(ep)]|, Occurrences(eps[ep], p) - 1));
      }
    }
  }

  lemma Regrouped(a: nat, b: nat, d: nat)
    ensures a * b * d == a * (b * d)
  {
  }

  // ---------------------------------------------------------------- one entry per holder

  /** Each holder listed gets just one entry of each connection. */
  ghost predicate OneEach(m: EpMap, eps: EpIndex, order: seq<EpKey>, p: Pid, c: Connection, holders: seq<Pid>)
    requires p in m && p in ResolveAll(m, eps, order)
  {
    forall i :: 0 <= i < |holders| ==> Entries(ResolveAll(m, eps, order)[p], Retarget(c, holders[i])) == Kin(m[p], c)
  }

  ghost predicate ListedOnce(holders: seq<Pid>) {
    forall i :: 0 <= i < |holders| ==> Occurrences(holders, holders[i]) == 1
  }

  lemma {:induction false} KinRetarget(cs: seq<Connection>, c: Connection, h: Pid)
    ensures Kin(cs, Retarget(c, h)) == Kin(cs, c)
  {
    if cs != [] {
      KinRetarget(cs[..|cs|-1], c, h);
    }
  }

  lemma AtLeastTwice(a: nat, b: nat)
    requires b >= 2
    ensures a * b >= 2 * a
  {
  }

  lemma ProductOfOne(a: nat, b: nat, d: nat)
    requires a > 0
    ensures a * b * d == a <==> b == 1 && d == 1
  {
    Regrouped(a, b, d);
    if b == 0 || d == 0 {
      assert b * d == 0;
    } else if b > 1 || d > 1 {
      assert b * d >= 2 by {
        if b > 1 {
          AtLeastTwice(d, b);
        } else {
          AtLeastTwice(b, d);
        }
      }
      AtLeastTwice(a, b * d);
    }
  }

  /** Every key that reaches the name has one holder. */
  predicate Single(eps: EpIndex, order: seq<EpKey>, p: Pid, name: string) {
    order == [] || (Single(eps, order[..|order|-1], p, name) && OneOf(eps, order[|order|-1], p, name))
  }

  predicate OneOf(eps: EpIndex, ep: EpKey, p: Pid, name: string) {
    Hits(eps, ep, p, name) ==> |eps[HolderKey(ep)]| == 1
  }

  /** The key has one holder or lists the process once. */
  predicate OnePass(eps: EpIndex, ep: EpKey, p: Pid)
    requires Effective(eps, ep)
  {
    |eps[HolderKey(ep)]| == 1 || Occurrences(eps[ep], p) == 1
  }

  /** Every key that reaches the name has one holder, save the last, which may list the process once instead. */
  predicate Plain(eps: EpIndex, order: seq<EpKey>, p: Pid, name: string)
    requires LastHit(eps, order, p, name).Some?
  {
    var front, ep := order[..|order|-1], order[|order|-1];
    if Hits(eps, ep, p, name) then Single(eps, front, p, name) && OnePass(eps, ep, p)
    else Plain(eps, front, p, name)
  }

  lemma {:induction false} PowerIsOne(k: nat, e: nat)
    requires k > 0
    ensures Power(k, e) > 0
    ensures Power(k, e) == 1 <==> k == 1 || e == 0
  {
    if e > 0 {
      PowerIsOne(k, e - 1);
      BothOne(k, Power(k, e - 1));
    }
  }

  lemma BothOne(a: nat, b: nat)
    ensures a * b == 1 <==> a == 1 && b == 1
    ensures a > 0 && b > 0 ==> a * b > 0
  {
    if a > 0 {
      TimesLength(b, a);
      if a > 1 && b > 0 {
        AtLeastTwice(b, a);
        Commute(a, b);
      }
    } else {
      assert a * b == 0;
    }
  }

  lemma {:induction false} FactorIsOne(eps: EpIndex, order: seq<EpKey>, p: Pid, name: string)
    ensures Factor(eps, order, p, name) == 1 <==> Single(eps, order, p, name)
  {
    if order != [] {
      var front, ep := order[..|order|-1], order[|order|-1];
      FactorIsOne(eps, front, p, name);
      if Hits(eps, ep, p, name) {
        PowerIsOne(|eps[HolderKey(ep)]|, Occurrences(eps[ep], p));
      }
      BothOne(Factor(eps, front, p, name), KeyFactor(eps, ep, p, name));
    }
  }

  lemma {:induction false} BeforeIsOne(eps: EpIndex, order: seq<EpKey>, p: Pid, name: string)
    requires LastHit(eps, order, p, name).Some?
    ensures Before(eps, order, p, name) == 1 <==> Plain(eps, order, p, name)
  {
    var front, ep := order[..|order|-1], order[|order|-1];
    if Hits(eps, ep, p, name) {
      var again := Power(|eps[HolderKey(ep)]|, Occurrences(eps[ep], p) - 1);
      FactorIsOne(eps, front, p, name);
      PowerIsOne(|eps[HolderKey(ep)]|, Occurrences(eps[ep], p) - 1);
      BothOne(Factor(eps, front, p, name), again);
    } else {
      BeforeIsOne(eps, front, p, name);
    }
  }

  /** A connection gets exactly one entry per holder if and only if the holders are listed once each, no other key that
      names the peer has several holders, and the last of them has one holder or lists the process once. */
  lemma OneEntryPlain(m: EpMap, eps: EpIndex, order: seq<EpKey>, p: Pid, c: Connection)
    requires p in m && p in ResolveAll(m, eps, order) && Kin(m[p], c) > 0 && LastHit(eps, order, p, c.peer.name).Some?
    ensures var holders := eps[HolderKey(LastHit(eps, order, p, c.peer.name).value)];
            OneEach(m, eps, order, p, c, holders) <==> ListedOnce(holders) && Plain(eps, order, p, c.peer.name)
  {
    var name := c.peer.name;
    var holders := eps[HolderKey(LastHit(eps, order, p, name).value)];
    BeforeIsOne(eps, order, p, name);
    forall i | 0 <= i < |holders|
      ensures Entries(ResolveAll(m, eps, order)[p], Retarget(c, holders[i])) == Kin(m[p], c) <==>
              Plain(eps, order, p, name) && Occurrences(holders, holders[i]) == 1
    {
      EntryCount(m, eps, order, p, Retarget(c, holders[i]));
      KinRetarget(m[p], c, holders[i]);
      ProductOfOne(Kin(m[p], c), Before(eps, order, p, name), Occurrences(holders, holders[i]));
    }
    if OneEach(m, eps, order, p, c, holders) {
      assert Entries(ResolveAll(m, eps, order)[p], Retarget(c, holders[0])) == Kin(m[p], c);
    }
  }

  lemma TimesLength(b: nat, k: nat)
    requires k > 0
    ensures b * k == k <==> b == 1
  {
    if b > 1 {
      AtLeastTwice(k, b);
    }
  }

  // ---------------------------------------------------------------- in terms of the connections

  /** How often connections of this type of process `p` name the peer, unresolved. */
  function Asks(epm: EpMap, typ: string, p: Pid, name: string): nat {
    Times(epm, EpKey(typ, "", name), p)
  }

  /** How often connections of this type of process `h` hold the endpoint. */
  function Holds(epm: EpMap, typ: string, name: string, h: Pid): nat {
    Times(epm, EpKey(typ, name, ""), h)
  }

  ghost predicate Reaches(epm: EpMap, typ: string, p: Pid, name: string) {
    name != "" && Asks(epm, typ, p, name) > 0 && exists h :: Holds(epm, typ, name, h) > 0
  }

  ghost predicate HeldOnce(epm: EpMap, typ: string, name: string) {
    forall h :: Holds(epm, typ, name, h) <= 1
  }

  /** One connection of one process holds it. */
  ghost predicate HeldByOne(epm: EpMap, typ: string, name: string) {
    HeldOnce(epm, typ, name) && forall h, h' :: Holds(epm, typ, name, h) > 0 && Holds(epm, typ, name, h') > 0 ==> h == h'
  }

  ghost predicate OthersHeldByOne(epm: EpMap, typ: string, p: Pid, name: string) {
    forall other :: other != typ && Reaches(epm, other, p, name) ==> HeldByOne(epm, other, name)
  }

  lemma OnlyPlainNames(epm: EpMap, eps: EpIndex, ep: EpKey, p: Pid, name: string)
    requires Counts(eps, epm) && Hits(eps, ep, p, name)
    ensures ep == EpKey(ep.typ, "", name)
    ensures Reaches(epm, ep.typ, p, name)
    ensures Occurrences(eps[ep], p) == Asks(epm, ep.typ, p, name)
  {
    var first := eps[HolderKey(ep)][0];
    assert Listed(eps, ep, p) == Times(epm, ep, p) > 0;
    HoldersListed(epm, eps, ep, name, first);
    assert Holds(epm, ep.typ, name, first) > 0;
    SeqTimesPlain(epm[p], ep, p);
  }

  /** No connection registers a key with both names. */
  lemma {:induction false} SeqTimesPlain(cs: seq<Connection>, k: EpKey, pid: Pid)
    requires SeqTimes(cs, k, pid) > 0
    ensures k.self == "" || k.peer == ""
  {
    var last := cs[|cs|-1];
    if last.self.pid != pid || RegTimes(last, k) == 0 {
      SeqTimesPlain(cs[..|cs|-1], k, pid);
    }
  }

  lemma ReachesHits(epm: EpMap, eps: EpIndex, typ: string, p: Pid, name: string)
    requires Counts(eps, epm) && Reaches(epm, typ, p, name)
    ensures Hits(eps, EpKey(typ, "", name), p, name)
  {
    var ep := EpKey(typ, "", name);
    var h :| Holds(epm, typ, name, h) > 0;
    assert Listed(eps, ep, p) == Times(epm, ep, p) > 0;
    assert Listed(eps, HolderKey(ep), h) == Times(epm, HolderKey(ep), h) > 0;
  }

  lemma HoldersListed(epm: EpMap, eps: EpIndex, ep: EpKey, name: string, h: Pid)
    requires Counts(eps, epm) && Effective(eps, ep) && ep.peer == name
    ensures Occurrences(eps[HolderKey(ep)], h) == Holds(epm, ep.typ, name, h)
  {
    assert Listed(eps, HolderKey(ep), h) == Times(epm, HolderKey(ep), h);
  }

  lemma ListedIsHeld(epm: EpMap, eps: EpIndex, ep: EpKey, name: string)
    requires Counts(eps, epm) && Effective(eps, ep) && ep.peer == name
    ensures ListedOnce(eps[HolderKey(ep)]) <==> HeldOnce(epm, ep.typ, name)
  {
    var holders := eps[HolderKey(ep)];
    forall h ensures Occurrences(holders, h) == Holds(epm, ep.typ, name, h) {
      HoldersListed(epm, eps, ep, name, h);
    }
    if ListedOnce(holders) {
      forall h ensures Holds(epm, ep.typ, name, h) <= 1 {
        if h in holders {
          var i :| 0 <= i < |holders| && holders[i] == h;
          assert Occurrences(holders, holders[i]) == 1;
        }
      }
    }
  }

  lemma LengthIsHeld(epm: EpMap, eps: EpIndex, ep: EpKey, name: string)
    requires Counts(eps, epm) && Effective(eps, ep) && ep.peer == name
    ensures |eps[HolderKey(ep)]| == 1 <==> HeldByOne(epm, ep.typ, name)
  {
    var holders := eps[HolderKey(ep)];
    forall h ensures Occurrences(holders, h) == Holds(epm, ep.typ, name, h) {
      HoldersListed(epm, eps, ep, name, h);
    }
    if |holders| == 1 {
      assert holders == [holders[0]];
    } else {
      var a, b := holders[0], holders[1];
      assert holders == [a, b] + holders[2..];
      assert Holds(epm, ep.typ, name, a) > 0 && Holds(epm, ep.typ, name, b) > 0;
      assert a == b ==> Holds(epm, ep.typ, name, a) > 1;
    }
  }

  lemma {:induction false} SingleAll(eps: EpIndex, order: seq<EpKey>, p: Pid, name: string)
    ensures Single(eps, order, p, name) <==> forall ep :: ep in order ==> OneOf(eps, ep, p, name)
  {
    if order != [] {
      var front, last := order[..|order|-1], order[|order|-1];
      SingleAll(eps, front, p, name);
      assert order == front + [last];
    }
  }

  lemma {:induction false} PlainAll(eps: EpIndex, order: seq<EpKey>, p: Pid, name: string)
    requires Distinct(order) && LastHit(eps, order, p, name).Some?
    ensures var hit := LastHit(eps, order, p, name).value;
            Plain(eps, order, p, name) <==>
            OnePass(eps, hit, p) && forall ep :: ep in order && ep != hit ==> OneOf(eps, ep, p, name)
  {
    var front, last := order[..|order|-1], order[|order|-1];
    assert order == front + [last];
    if Hits(eps, last, p, name) {
      SingleAll(eps, front, p, name);
      assert last !in front;
    } else {
      PlainAll(eps, front, p, name);
    }
  }

  /** In terms of the connections alone: one entry per holder if and only if every process holds the peer's endpoint in one
      connection of the type that decides, no other type of which the process names the peer has more than one connection
      holding it, and of the deciding type there is one such connection, or one that names the peer. */
  lemma OneEntryPerHolder(m: EpMap, eps: EpIndex, order: seq<EpKey>, p: Pid, c: Connection, typ: string)
    requires Counts(eps, m) && Enumerates(order, eps.Keys)
    requires p in m && p in ResolveAll(m, eps, order) && Kin(m[p], c) > 0
    requires LastHit(eps, order, p, c.peer.name) == Some(EpKey(typ, "", c.peer.name))
    ensures var name := c.peer.name;
            OneEach(m, eps, order, p, c, eps[EpKey(typ, name, "")]) <==>
            && HeldOnce(m, typ, name) && OthersHeldByOne(m, typ, p, name)
            && (HeldByOne(m, typ, name) || Asks(m, typ, p, name) == 1)
  {
    var name := c.peer.name;
    var hit := EpKey(typ, "", name);
    OneEntryPlain(m, eps, order, p, c);
    ListedIsHeld(m, eps, hit, name);
    LengthIsHeld(m, eps, hit, name);
    OnlyPlainNames(m, eps, hit, p, name);
    PlainAll(eps, order, p, name);
    OthersAll(m, eps, order, p, name, typ);
  }

  lemma OthersAll(m: EpMap, eps: EpIndex, order: seq<EpKey>, p: Pid, name: string, typ: string)
    requires Counts(eps, m) && Enumerates(order, eps.Keys)
    ensures OthersHeldByOne(m, typ, p, name) <==>
            forall ep :: ep in order && ep != EpKey(typ, "", name) ==> OneOf(eps, ep, p, name)
  {
    if OthersHeldByOne(m, typ, p, name) {
      forall ep | ep in order && ep != EpKey(typ, "", name)
        ensures OneOf(eps, ep, p, name)
      {
        if Hits(eps, ep, p, name) {
          OnlyPlainNames(m, eps, ep, p, name);
          LengthIsHeld(m, eps, ep, name);
        }
      }
    }
    if forall ep :: ep in order && ep != EpKey(typ, "", name) ==> OneOf(eps, ep, p, name) {
      forall other | other != typ && Reaches(m, other, p, name)
        ensures HeldByOne(m, other, name)
      {
        var ep := EpKey(other, "", name);
        ReachesHits(m, eps, other, p, name);
        assert ep in SetOf(order);
        assert OneOf(eps, ep, p, name);
        LengthIsHeld(m, eps, ep, name);
      }
    }
  }

  // ---------------------------------------------------------------- a process with two connections to one peer

  const FIRST := Connection("PIPE", Endpoint("a", 1), Endpoint("x", 0))
  const SECOND := Connection("PIPE", Endpoint("b", 1), Endpoint("x", 0))
  const HOLDER := Connection("PIPE", Endpoint("x", 2), Endpoint("", 0))
  const OTHER := Connection("PIPE", Endpoint("x", 3), Endpoint("", 0))

  const TWICE: EpMap := map[1 := [FIRST, SECOND], 2 := [HOLDER], 3 := [OTHER]]

  const SOUGHT := EpKey("PIPE", "", "x")

  lemma TwoTimes(c: Connection, c': Connection, k: EpKey, pid: Pid)
    ensures SeqTimes([c], k, pid) == if c.self.pid == pid then RegTimes(c, k) else 0
    ensures SeqTimes([c, c'], k, pid) == (if c.self.pid == pid then RegTimes(c, k) else 0) + if c'.self.pid == pid then RegTimes(c', k) else 0
  {
    assert [c][..0] == [] && [c, c'][..1] == [c];
  }

  lemma TwiceTimes(pid: Pid)
    ensures Times(TWICE, SOUGHT, 1) == 2
    ensures Times(TWICE, HolderKey(SOUGHT), pid) == if pid == 2 || pid == 3 then 1 else 0
  {
    assert "a" != "x" && "b" != "x" by {
      assert "a"[0] != "x"[0] && "b"[0] != "x"[0];
    }
    TwoTimes(FIRST, SECOND, SOUGHT, 1);
    TwoTimes(FIRST, SECOND, HolderKey(SOUGHT), pid);
    TwoTimes(HOLDER, HOLDER, HolderKey(SOUGHT), pid);
    TwoTimes(OTHER, OTHER, HolderKey(SOUGHT), pid);
  }

  lemma TwiceIndex(eps: EpIndex)
    requires Counts(eps, TWICE)
    ensures SOUGHT in eps && Occurrences(eps[SOUGHT], 1) == 2
    ensures HolderKey(SOUGHT) in eps && |eps[HolderKey(SOUGHT)]| == 2
  {
    var held := HolderKey(SOUGHT);
    TwiceTimes(2);
    assert Listed(eps, SOUGHT, 1) == 2 && Listed(eps, held, 2) == 1;
    var listed := multiset(eps[held]);
    forall pid: Pid ensures listed[pid] == multiset{2, 3}[pid] {
      TwiceTimes(pid);
      assert Listed(eps, held, pid) == Times(TWICE, held, pid);
    }
    assert listed == multiset{2, 3};
    assert |eps[held]| == |listed|;
  }

  lemma {:induction false} NoFactor(eps: EpIndex, order: seq<EpKey>, p: Pid, name: string)
    requires forall i :: 0 <= i < |order| ==> !Hits(eps, order[i], p, name)
    ensures Factor(eps, order, p, name) == 1
  {
    if order != [] {
      NoFactor(eps, order[..|order|-1], p, name);
    }
  }

  /** Where one key alone reaches a connection, it alone multiplies it. */
  lemma {:induction false} OneFactor(eps: EpIndex, order: seq<EpKey>, p: Pid, name: string, ep: EpKey)
    requires forall k :: Hits(eps, k, p, name) <==> k == ep
    requires Distinct(order) && ep in order && Effective(eps, ep)
    ensures Factor(eps, order, p, name) == Power(|eps[HolderKey(ep)]|, Occurrences(eps[ep], p))
  {
    var front, last := order[..|order|-1], order[|order|-1];
    assert order == front + [last];
    if last == ep {
      NoFactor(eps, front, p, name);
    } else {
      OneFactor(eps, front, p, name, ep);
    }
  }

  lemma TwiceHits(eps: EpIndex, ep: EpKey)
    requires Counts(eps, TWICE)
    ensures Hits(eps, ep, 1, "x") <==> ep == SOUGHT
  {
    TwiceIndex(eps);
    TwoTimes(FIRST, SECOND, ep, 1);
    assert ep in eps ==> (1 in eps[ep] <==> Listed(eps, ep, 1) > 0);
    assert Listed(eps, SOUGHT, 1) == 2;
  }

  /** Two connections of one process to a peer with two holders end as four entries each, in every visit. */
  lemma TwiceGrows(eps: EpIndex, order: seq<EpKey>)
    requires Counts(eps, TWICE) && Enumerates(order, eps.Keys)
    ensures KeyedByPid(TWICE) && 1 in ResolveAll(TWICE, eps, order)
    ensures Kin(TWICE[1], FIRST) == 1 && Kin(ResolveAll(TWICE, eps, order)[1], FIRST) == 4
  {
    TwiceIndex(eps);
    forall ep ensures Hits(eps, ep, 1, "x") <==> ep == SOUGHT {
      TwiceHits(eps, ep);
    }
    assert SOUGHT in SetOf(order);
    OneFactor(eps, order, 1, "x", SOUGHT);
    ResolutionGrowth(TWICE, eps, order, 1, FIRST);
    assert TWICE[1][..1] == [FIRST] && [FIRST][..0] == [];
    assert Kin([FIRST], FIRST) == 1 && !Alike(FIRST, SECOND) by {
      assert "a"[0] != "b"[0];
    }
    assert Power(2, 2) == 2 * Power(2, 1) == 2 * (2 * Power(2, 0));
  }
}
