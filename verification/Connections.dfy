/** Peer resolution: process/connection.go. */
module Connections {
  import opened Collections
  import opened ProcessTypes
  import opened Sorting

  /** Key of the endpoint index: connection type, own endpoint name, peer endpoint name. */
  datatype EpKey = EpKey(typ: string, self: string, peer: string)

  type EpIndex = map<EpKey, seq<Pid>>
  type EpMap = map<Pid, seq<Connection>>

  // ---------------------------------------------------------------- the endpoint index

  /** Indexing such a connection reads the first byte of an empty name. */
  predicate Panics(c: Connection) {
    c.typ == "unix" && c.self.name != "" && c.peer.name == ""
  }

  predicate NamedSocket(c: Connection) {
    c.typ == "unix" && c.self.name != "" && c.peer.name != "" && c.peer.name[0] == '/'
  }

  function SelfKey(c: Connection): EpKey {
    EpKey(c.typ, c.self.name, "")
  }

  function PeerKey(c: Connection): EpKey {
    EpKey(c.typ, "", c.peer.name)
  }

  predicate Registers(c: Connection, k: EpKey) {
    || (NamedSocket(c) && k == SelfKey(c))
    || (!NamedSocket(c) && c.peer.pid == 0 && (k == SelfKey(c) || k == PeerKey(c)))
  }

  ghost predicate SeqRegisters(cs: seq<Connection>, k: EpKey, pid: Pid) {
    exists c :: c in cs && Registers(c, k) && c.self.pid == pid
  }

  /** How often a connection adds its pid under a key: twice when it names neither end. */
  function RegTimes(c: Connection, k: EpKey): nat {
    if NamedSocket(c) then (if k == SelfKey(c) then 1 else 0)
    else if c.peer.pid == 0 then (if k == SelfKey(c) then 1 else 0) + (if k == PeerKey(c) then 1 else 0)
    else 0
  }

  function SeqTimes(cs: seq<Connection>, k: EpKey, pid: Pid): nat {
    if cs == [] then 0
    else SeqTimes(cs[..|cs|-1], k, pid) + if cs[|cs|-1].self.pid == pid then RegTimes(cs[|cs|-1], k) else 0
  }

  function Listed(eps: EpIndex, k: EpKey, pid: Pid): nat {
    if k in eps then multiset(eps[k])[pid] else 0
  }

  ghost predicate IndexOfSeq(eps: EpIndex, seen: seq<Connection>) {
    && (forall k, pid :: Listed(eps, k, pid) == SeqTimes(seen, k, pid))
    && (forall k :: k in eps ==> eps[k] != [])
  }

  /** Every connection is listed under its own pid. */
  ghost predicate KeyedByPid(epm: EpMap) {
    forall p, i :: p in epm && 0 <= i < |epm[p]| ==> epm[p][i].self.pid == p
  }

  function Times(epm: EpMap, k: EpKey, pid: Pid): nat {
    if pid in epm then SeqTimes(epm[pid], k, pid) else 0
  }

  /** The index lists a pid as often as its connections register the key. */
  ghost predicate Counts(eps: EpIndex, epm: EpMap) {
    forall k, pid :: Listed(eps, k, pid) == Times(epm, k, pid)
  }

  ghost predicate MapRegisters(epm: EpMap, k: EpKey, pid: Pid) {
    exists p :: p in epm && SeqRegisters(epm[p], k, pid)
  }

  predicate InIndex(eps: EpIndex, k: EpKey, pid: Pid) {
    k in eps && pid in eps[k]
  }

  /** `eps` lists, under every key, exactly the pids that registered it, in ascending order. */
  ghost predicate IndexOf(eps: EpIndex, epm: EpMap) {
    && (forall k, pid :: InIndex(eps, k, pid) <==> MapRegisters(epm, k, pid))
    && (forall k :: k in eps ==> eps[k] != [] && Sorted(eps[k]))
  }

  function Append(eps: EpIndex, k: EpKey, pid: Pid): EpIndex {
    eps[k := (if k in eps then eps[k] else []) + [pid]]
  }

  // ---------------------------------------------------------------- specification of the resolution loop

  function Heads(cs: seq<Connection>, name: string, self: Pid): (r: seq<Connection>)
    ensures |r| == |cs|
  {
    seq(|cs|, i requires 0 <= i < |cs| => if cs[i].peer.name == name then Retarget(cs[i], self) else cs[i])
  }

  function Copies(c: Connection, pids: seq<Pid>): (r: seq<Connection>)
    ensures |r| == |pids|
  {
    seq(|pids|, i requires 0 <= i < |pids| => Retarget(c, pids[i]))
  }

  function Dups(cs: seq<Connection>, name: string, pids: seq<Pid>): seq<Connection> {
    if cs == [] then []
    else
      var front := Dups(cs[..|cs|-1], name, pids);
      var c := cs[|cs|-1];
      if c.peer.name == name then front + Copies(c, pids) else front
  }

  /** One run of the innermost range loop over a process' connections. */
  function Pass(cs: seq<Connection>, name: string, selves: seq<Pid>): seq<Connection>
    requires selves != []
  {
    Heads(cs, name, selves[0]) + Dups(cs, name, selves[1..])
  }

  function ResolvePeers(m: EpMap, peers: seq<Pid>, name: string, selves: seq<Pid>): EpMap
    requires selves != []
  {
    if peers == [] then m
    else
      var m' := ResolvePeers(m, peers[..|peers|-1], name, selves);
      var peer := peers[|peers|-1];
      if peer in m' then m'[peer := Pass(m'[peer], name, selves)] else m'
  }

  function HolderKey(ep: EpKey): EpKey {
    EpKey(ep.typ, ep.peer, "")
  }

  /** The key names a peer endpoint that some process holds. */
  predicate Effective(eps: EpIndex, ep: EpKey) {
    ep in eps && ep.peer != "" && HolderKey(ep) in eps && eps[HolderKey(ep)] != []
  }

  function ResolveKey(m: EpMap, eps: EpIndex, ep: EpKey): EpMap {
    if Effective(eps, ep)
    then ResolvePeers(m, eps[ep], ep.peer, eps[HolderKey(ep)])
    else m
  }

  function ResolveAll(m: EpMap, eps: EpIndex, order: seq<EpKey>): EpMap {
    if order == [] then m
    else ResolveKey(ResolveAll(m, eps, order[..|order|-1]), eps, order[|order|-1])
  }

  // ---------------------------------------------------------------- the code

  class EndpointMap {
    var epm: EpMap

    constructor (epm: EpMap)
      ensures this.epm == epm
    {
      this.epm := epm;
    }

    /** Indexes one process' connections. */
    method IndexProcess(eps0: EpIndex, conns: seq<Connection>, ghost seen: seq<Connection>)
      returns (panicked: bool, eps: EpIndex)
      requires IndexOfSeq(eps0, seen)
      ensures panicked <==> exists c :: c in conns && Panics(c)
      ensures !panicked ==> IndexOfSeq(eps, seen + conns)
    {
      eps := eps0;
      panicked := false;
      assert seen + conns[..0] == seen;
      for i := 0 to |conns|
        invariant forall c :: c in conns[..i] ==> !Panics(c)
        invariant IndexOfSeq(eps, seen + conns[..i])
      {
        var conn := conns[i];
        if conn.typ == "unix" && conn.self.name != "" && conn.peer.name == "" {
          assert conn in conns && Panics(conn);
          panicked := true;
          return;
        }
        ghost var before := eps;
        if NamedSocket(conn) {
          eps := Append(eps, SelfKey(conn), conn.self.pid);
        } else if conn.peer.pid == 0 {
          eps := Append(eps, SelfKey(conn), conn.self.pid);
          eps := Append(eps, PeerKey(conn), conn.self.pid);
        }
        assert eps == Registered(before, conn);
        RegisterOne(before, seen + conns[..i], conn);
        assert seen + conns[..i+1] == seen + conns[..i] + [conn];
      }
      assert conns[..|conns|] == conns;
    }

    method BuildIndex() returns (panicked: bool, eps: EpIndex)
      ensures panicked <==> exists p, c :: p in epm && c in epm[p] && Panics(c)
      ensures !panicked ==> IndexOf(eps, epm)
      ensures !panicked && KeyedByPid(epm) ==> Counts(eps, epm)
    {
      eps := map[];
      panicked := false;
      var todo := epm.Keys;
      ghost var seen: seq<Connection> := [];
      while todo != {}
        invariant todo <= epm.Keys
        invariant forall c :: c in seen ==> !Panics(c)
        invariant Covers(seen, epm, epm.Keys - todo)
        invariant KeyedByPid(epm) ==> OwnTimes(seen, epm, epm.Keys - todo)
        invariant IndexOfSeq(eps, seen)
      {
        NonEmpty(todo);
        var p :| p in todo;
        panicked, eps := IndexProcess(eps, epm[p], seen);
        if panicked {
          return;
        }
        CoversOne(seen, epm, epm.Keys - todo, p);
        if KeyedByPid(epm) {
          OwnTimesOne(seen, epm, epm.Keys - todo, p);
        }
        assert epm.Keys - (todo - {p}) == epm.Keys - todo + {p};
        todo, seen := todo - {p}, seen + epm[p];
      }
      assert epm.Keys - todo == epm.Keys;
      IndexComplete(eps, epm, seen);
      eps := SortIndex(eps);
    }

    /** Resolves the peers; on the panic that the function recovers from, nothing has changed yet. */
    method Connections() returns (panicked: bool, ghost eps: EpIndex, ghost order: seq<EpKey>)
      modifies this
      ensures panicked <==> exists p, c :: p in old(epm) && c in old(epm)[p] && Panics(c)
      ensures panicked ==> epm == old(epm)
      ensures !panicked ==> IndexOf(eps, old(epm)) && Enumerates(order, eps.Keys)
      ensures !panicked && KeyedByPid(old(epm)) ==> Counts(eps, old(epm))
      ensures !panicked ==> epm == ResolveAll(old(epm), eps, order)
    {
      var index;
      panicked, index := BuildIndex();
      eps, order := index, [];
      if !panicked {
        order := ResolveIndex(index);
      }
    }

    /** Ranges over the index in any order. */
    method ResolveIndex(eps: EpIndex) returns (ghost order: seq<EpKey>)
      requires forall k :: k in eps ==> eps[k] != []
      modifies this
      ensures Enumerates(order, eps.Keys)
      ensures epm == ResolveAll(old(epm), eps, order)
    {
      order := [];
      var todo := eps.Keys;
      while todo != {}
        invariant todo <= eps.Keys
        invariant Enumerates(order, eps.Keys - todo)
        invariant epm == ResolveAll(old(epm), eps, order)
      {
        var ep :| ep in todo;
        EnumeratesNext(order, eps.Keys, todo, ep);
        if ep.peer != "" && EpKey(ep.typ, ep.peer, "") in eps {
          ResolveEndpoint(ep.peer, eps[EpKey(ep.typ, ep.peer, "")], eps[ep]);
        }
        todo, order := todo - {ep}, order + [ep];
      }
    }

    /** The two inner loops: every peer's matching connections get the holders' pids. */
    method ResolveEndpoint(name: string, selves: seq<Pid>, peers: seq<Pid>)
      requires selves != []
      modifies this
      ensures epm == ResolvePeers(old(epm), peers, name, selves)
    {
      for j := 0 to |peers|
        invariant epm == ResolvePeers(old(epm), peers[..j], name, selves)
      {
        ResolvePeer(name, selves, peers[j]);
        assert peers[..j+1][..|peers[..j+1]|-1] == peers[..j];
      }
      assert peers[..|peers|] == peers;
    }

    /** One copy of entry `i`, which is `c` but for the peer's pid, for each further holder. */
    method AppendCopies(peer: Pid, i: nat, c: Connection, selves: seq<Pid>)
      requires selves != [] && peer in epm && i < |epm[peer]| && epm[peer][i] == Retarget(c, selves[0])
      modifies this
      ensures epm == old(epm)[peer := old(epm)[peer] + Copies(c, selves[1..])]
    {
      ghost var m, base := epm, epm[peer];
      assert base + Copies(c, selves[1..1]) == base;
      for s := 1 to |selves|
        invariant epm == m[peer := base + Copies(c, selves[1..s])]
      {
        var conn := Retarget(epm[peer][i], selves[s]);
        CopiesMore(c, selves, s);
        assert conn == Retarget(c, selves[s]);
        assert base + Copies(c, selves[1..s]) + [conn] == base + Copies(c, selves[1..s+1]);
        epm := epm[peer := epm[peer] + [conn]];
      }
      assert selves[1..|selves|] == selves[1..];
    }

    /** The range over one process' connections evaluates the slice once, then rewrites and extends the slice in the map. */
    method ResolvePeer(name: string, selves: seq<Pid>, peer: Pid)
      requires selves != []
      modifies this
      ensures epm == if peer in old(epm) then old(epm)[peer := Pass(old(epm)[peer], name, selves)] else old(epm)
    {
      if peer !in epm {
        return;
      }
      var self := selves[0];
      var conns := epm[peer];
      ghost var m := epm;
      assert Halfway(conns, 0, name, selves) == conns by {
        assert conns[..0] == [] && conns[0..] == conns;
      }
      assert epm == m[peer := conns];
      for i := 0 to |conns|
        invariant epm == m[peer := Halfway(conns, i, name, selves)]
      {
        if conns[i].peer.name == name {
          epm := epm[peer := epm[peer][i := Retarget(epm[peer][i], self)]];
          AppendCopies(peer, i, conns[i], selves);
        }
        HalfwayStep(conns, i, name, selves);
      }
      assert Halfway(conns, |conns|, name, selves) == Pass(conns, name, selves) by {
        assert conns[..|conns|] == conns;
      }
    }
  }

  /** A process' list when the innermost range loop is about to look at entry `i`. */
  ghost function Halfway(cs: seq<Connection>, i: nat, name: string, selves: seq<Pid>): (r: seq<Connection>)
    requires i <= |cs| && selves != []
    ensures |r| >= |cs| && r[i..|cs|] == cs[i..]
  {
    Heads(cs[..i], name, selves[0]) + cs[i..] + Dups(cs[..i], name, selves[1..])
  }

  lemma HalfwayStep(cs: seq<Connection>, i: nat, name: string, selves: seq<Pid>)
    requires i < |cs| && selves != []
    ensures Halfway(cs, i+1, name, selves) ==
            if cs[i].peer.name == name
            then Halfway(cs, i, name, selves)[i := Retarget(cs[i], selves[0])] + Copies(cs[i], selves[1..])
            else Halfway(cs, i, name, selves)
  {
    assert cs[..i+1][..|cs[..i+1]|-1] == cs[..i];
    assert cs[i..] == [cs[i]] + cs[i+1..];
    var h := if cs[i].peer.name == name then Retarget(cs[i], selves[0]) else cs[i];
    assert Heads(cs[..i+1], name, selves[0]) == Heads(cs[..i], name, selves[0]) + [h];
  }

  lemma CopiesMore(c: Connection, selves: seq<Pid>, s: nat)
    requires 1 <= s < |selves|
    ensures Copies(c, selves[1..s+1]) == Copies(c, selves[1..s]) + [Retarget(c, selves[s])]
  {
    assert selves[1..s+1] == selves[1..s] + [selves[s]];
  }

  lemma AppendListed(eps: EpIndex, key: EpKey, pid: Pid, k: EpKey, p: Pid)
    ensures Listed(Append(eps, key, pid), k, p) == Listed(eps, k, p) + if k == key && p == pid then 1 else 0
  {
  }

  function Registered(eps: EpIndex, c: Connection): EpIndex {
    if NamedSocket(c) then Append(eps, SelfKey(c), c.self.pid)
    else if c.peer.pid == 0 then Append(Append(eps, SelfKey(c), c.self.pid), PeerKey(c), c.self.pid)
    else eps
  }

  lemma RegisteredListed(eps: EpIndex, c: Connection, k: EpKey, pid: Pid)
    ensures Listed(Registered(eps, c), k, pid) == Listed(eps, k, pid) + if c.self.pid == pid then RegTimes(c, k) else 0
  {
    AppendListed(eps, SelfKey(c), c.self.pid, k, pid);
    AppendListed(Append(eps, SelfKey(c), c.self.pid), PeerKey(c), c.self.pid, k, pid);
  }

  lemma SeqTimesMore(cs: seq<Connection>, c: Connection, k: EpKey, pid: Pid)
    ensures SeqTimes(cs + [c], k, pid) == SeqTimes(cs, k, pid) + if c.self.pid == pid then RegTimes(c, k) else 0
  {
    assert (cs + [c])[..|cs|] == cs;
  }

  lemma RegisterOne(eps: EpIndex, seen: seq<Connection>, conn: Connection)
    requires IndexOfSeq(eps, seen)
    ensures IndexOfSeq(Registered(eps, conn), seen + [conn])
  {
    forall k, pid ensures Listed(Registered(eps, conn), k, pid) == SeqTimes(seen + [conn], k, pid) {
      RegisteredListed(eps, conn, k, pid);
      SeqTimesMore(seen, conn, k, pid);
    }
  }

  lemma {:induction false} SeqTimesConcat(a: seq<Connection>, b: seq<Connection>, k: EpKey, pid: Pid)
    ensures SeqTimes(a + b, k, pid) == SeqTimes(a, k, pid) + SeqTimes(b, k, pid)
  {
    if b == [] {
      assert a + b == a;
    } else {
      assert (a + b)[..|a + b|-1] == a + b[..|b|-1];
      SeqTimesConcat(a, b[..|b|-1], k, pid);
    }
  }

  lemma {:induction false} TimesRegister(cs: seq<Connection>, k: EpKey, pid: Pid)
    ensures SeqTimes(cs, k, pid) > 0 <==> SeqRegisters(cs, k, pid)
  {
    if cs != [] {
      var front, last := cs[..|cs|-1], cs[|cs|-1];
      assert cs == front + [last];
      TimesRegister(front, k, pid);
      if SeqRegisters(front, k, pid) {
        var c :| c in front && Registers(c, k) && c.self.pid == pid;
        assert c in cs;
      }
    }
  }

  lemma {:induction false} TimesElsewhere(cs: seq<Connection>, k: EpKey, p: Pid, pid: Pid)
    requires p != pid && forall i :: 0 <= i < |cs| ==> cs[i].self.pid == p
    ensures SeqTimes(cs, k, pid) == 0
  {
    if cs != [] {
      TimesElsewhere(cs[..|cs|-1], k, p, pid);
    }
  }

  /** A pid's registrations are those of its own connections. */
  ghost predicate OwnTimes(seen: seq<Connection>, epm: EpMap, pids: set<Pid>)
    requires pids <= epm.Keys
  {
    forall k, pid :: SeqTimes(seen, k, pid) == if pid in pids then SeqTimes(epm[pid], k, pid) else 0
  }

  lemma OwnTimesOne(seen: seq<Connection>, epm: EpMap, pids: set<Pid>, p: Pid)
    requires pids <= epm.Keys && p in epm && p !in pids && KeyedByPid(epm) && OwnTimes(seen, epm, pids)
    ensures OwnTimes(seen + epm[p], epm, pids + {p})
  {
    forall k, pid
      ensures SeqTimes(seen + epm[p], k, pid) == if pid in pids + {p} then SeqTimes(epm[pid], k, pid) else 0
    {
      SeqTimesConcat(seen, epm[p], k, pid);
      if pid != p {
        TimesElsewhere(epm[p], k, p, pid);
      }
    }
  }

  lemma IndexComplete(eps: EpIndex, epm: EpMap, seen: seq<Connection>)
    requires IndexOfSeq(eps, seen) && Covers(seen, epm, epm.Keys)
    ensures forall k, pid :: InIndex(eps, k, pid) <==> MapRegisters(epm, k, pid)
    ensures OwnTimes(seen, epm, epm.Keys) ==> Counts(eps, epm)
  {
    forall k, pid ensures InIndex(eps, k, pid) <==> MapRegisters(epm, k, pid) {
      TimesRegister(seen, k, pid);
      SeenAll(epm, seen, k, pid);
      assert InIndex(eps, k, pid) <==> Listed(eps, k, pid) > 0;
    }
  }

  ghost predicate Covers(seen: seq<Connection>, epm: EpMap, pids: set<Pid>)
    requires pids <= epm.Keys
  {
    forall c :: c in seen <==> exists p :: p in pids && c in epm[p]
  }

  lemma CoversOne(seen: seq<Connection>, epm: EpMap, pids: set<Pid>, p: Pid)
    requires pids <= epm.Keys && p in epm && Covers(seen, epm, pids)
    ensures Covers(seen + epm[p], epm, pids + {p})
  {
    forall c
      ensures c in seen + epm[p] <==> exists q :: q in pids + {p} && c in epm[q]
    {
      if c in seen {
        var q :| q in pids && c in epm[q];
        assert q in pids + {p};
      } else if c in epm[p] {
        assert p in pids + {p};
      }
    }
  }

  lemma SeenAll(epm: EpMap, seen: seq<Connection>, k: EpKey, pid: Pid)
    requires Covers(seen, epm, epm.Keys)
    ensures SeqRegisters(seen, k, pid) <==> MapRegisters(epm, k, pid)
  {
    if MapRegisters(epm, k, pid) {
      var p :| p in epm && SeqRegisters(epm[p], k, pid);
      var c :| c in epm[p] && Registers(c, k) && c.self.pid == pid;
      assert c in seen;
    }
  }

  method SortIndex(eps: EpIndex) returns (r: EpIndex)
    requires forall k :: k in eps ==> eps[k] != []
    ensures forall k, pid :: InIndex(r, k, pid) <==> InIndex(eps, k, pid)
    ensures forall k, pid :: Listed(r, k, pid) == Listed(eps, k, pid)
    ensures forall k :: k in r ==> r[k] != [] && Sorted(r[k])
  {
    r := eps;
    var todo := eps.Keys;
    while todo != {}
      invariant r.Keys == eps.Keys && todo <= eps.Keys
      invariant forall k :: k in todo ==> r[k] == eps[k]
      invariant forall k :: k in eps.Keys - todo ==> Sorted(r[k]) && multiset(r[k]) == multiset(eps[k])
    {
      var k :| k in todo;
      r := r[k := Sort(r[k])];
      todo := todo - {k};
    }
    forall k | k in eps
      ensures multiset(r[k]) == multiset(eps[k]) && Sorted(r[k])
    {
      assert k in eps.Keys - todo;
    }
    forall k, pid
      ensures InIndex(r, k, pid) <==> InIndex(eps, k, pid)
    {
      if k in eps {
        assert pid in r[k] <==> pid in multiset(r[k]);
        assert pid in eps[k] <==> pid in multiset(eps[k]);
      }
    }
    forall k | k in r ensures r[k] != [] {
      assert |multiset(r[k])| == |r[k]|;
    }
  }
}
