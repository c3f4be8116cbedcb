/** What the resolution loops of process/connection.go compute, whatever order Go visits the maps in. */
module PeerResolution {
  import opened Collections
  import opened ProcessTypes
  import opened Sorting
  import opened Connections

  // ---------------------------------------------------------------- one key at a time

  /** Key `ep` of the index makes the loops rewrite the connections of process `p` whose peer is `name`. */
  predicate Hits(eps: EpIndex, ep: EpKey, p: Pid, name: string) {
    Effective(eps, ep) && ep.peer == name && p in eps[ep]
  }

  /** The last key of the visit that does so. */
  function LastHit(eps: EpIndex, order: seq<EpKey>, p: Pid, name: string): (r: Option<EpKey>)
    ensures r.Some? ==> r.value in order && Hits(eps, r.value, p, name)
    ensures r.None? ==> forall ep :: ep in order ==> !Hits(eps, ep, p, name)
  {
    if order == [] then None
    else if Hits(eps, order[|order|-1], p, name) then Some(order[|order|-1])
    else
      assert order == order[..|order|-1] + [order[|order|-1]];
      LastHit(eps, order[..|order|-1], p, name)
  }

  /** `c` with its peer moved to one of `holders` is `c'`. */
  predicate MovedTo(c: Connection, c': Connection, holders: seq<Pid>) {
    c'.peer.pid in holders && c' == Retarget(c, c'.peer.pid)
  }

  predicate Spread(c: Connection, c': Connection, name: string, selves: seq<Pid>) {
    if c.peer.name == name then MovedTo(c, c', selves) else c' == c
  }

  /** `c'` is what becomes of `c`, or one of the copies made of it. */
  predicate Final(eps: EpIndex, order: seq<EpKey>, p: Pid, c: Connection, c': Connection) {
    match LastHit(eps, order, p, c.peer.name)
    case None => c' == c
    case Some(ep) => MovedTo(c, c', eps[HolderKey(ep)])
  }

  lemma {:induction false} DupsMembers(cs: seq<Connection>, name: string, pids: seq<Pid>, c': Connection)
    ensures c' in Dups(cs, name, pids) <==> exists c :: c in cs && c.peer.name == name && MovedTo(c, c', pids)
  {
    if cs != [] {
      var front, last := cs[..|cs|-1], cs[|cs|-1];
      assert cs == front + [last];
      DupsMembers(front, name, pids, c');
      if last.peer.name == name && MovedTo(last, c', pids) {
        var i :| 0 <= i < |pids| && pids[i] == c'.peer.pid;
        assert Copies(last, pids)[i] == c';
      }
    }
  }

  lemma PassMembers(cs: seq<Connection>, name: string, selves: seq<Pid>, c': Connection)
    requires selves != []
    ensures c' in Pass(cs, name, selves) <==> exists c :: c in cs && Spread(c, c', name, selves)
  {
    var heads, dups := Heads(cs, name, selves[0]), Dups(cs, name, selves[1..]);
    DupsMembers(cs, name, selves[1..], c');
    assert selves == [selves[0]] + selves[1..];
    if c' in heads {
      var i :| 0 <= i < |heads| && heads[i] == c';
      assert cs[i] in cs && Spread(cs[i], c', name, selves);
    }
    if exists c :: c in cs && Spread(c, c', name, selves) {
      var c :| c in cs && Spread(c, c', name, selves);
      var i :| 0 <= i < |cs| && cs[i] == c;
      if c.peer.name == name && c'.peer.pid != selves[0] {
        assert c'.peer.pid in selves[1..];
        assert c' in dups;
      } else {
        assert heads[i] == c';
      }
    }
  }

  lemma {:induction false} ResolvePeersMembers(m: EpMap, peers: seq<Pid>, name: string, selves: seq<Pid>, p: Pid, c': Connection)
    requires selves != [] && p in m
    ensures ResolvePeers(m, peers, name, selves).Keys == m.Keys
    ensures c' in ResolvePeers(m, peers, name, selves)[p] <==>
            if p in peers then exists c :: c in m[p] && Spread(c, c', name, selves) else c' in m[p]
  {
    if peers != [] {
      var front, last := peers[..|peers|-1], peers[|peers|-1];
      assert peers == front + [last];
      var m' := ResolvePeers(m, front, name, selves);
      ResolvePeersMembers(m, front, name, selves, p, c');
      if last == p {
        PassMembers(m'[p], name, selves, c');
        forall c ensures c in m'[p] <==> if p in front then exists b :: b in m[p] && Spread(b, c, name, selves) else c in m[p]
        {
          ResolvePeersMembers(m, front, name, selves, p, c);
        }
        if p in front {
          SpreadTwice(m[p], m'[p], name, selves, c');
        }
      }
    }
  }

  /** Spreading over the same holders a second time adds nothing new. */
  lemma SpreadTwice(cs: seq<Connection>, cs': seq<Connection>, name: string, selves: seq<Pid>, c': Connection)
    requires forall c :: c in cs' <==> exists b :: b in cs && Spread(b, c, name, selves)
    ensures (exists c :: c in cs' && Spread(c, c', name, selves)) <==> (exists b :: b in cs && Spread(b, c', name, selves))
  {
    if exists c :: c in cs' && Spread(c, c', name, selves) {
      var c :| c in cs' && Spread(c, c', name, selves);
      var b :| b in cs && Spread(b, c, name, selves);
      assert Spread(b, c', name, selves);
    }
    if exists b :: b in cs && Spread(b, c', name, selves) {
      assert c' in cs' && Spread(c', c', name, selves);
    }
  }

  // ---------------------------------------------------------------- the whole visit

  /** After any visit of the index, in any order and with any repetition of pids in it, a process
      holds exactly its connections with the peer moved to each holder named by the last key that hit. */
  lemma {:induction false} ResolutionMembers(m: EpMap, eps: EpIndex, order: seq<EpKey>, p: Pid, c': Connection)
    requires p in m
    ensures ResolveAll(m, eps, order).Keys == m.Keys
    ensures c' in ResolveAll(m, eps, order)[p] <==> exists c :: c in m[p] && Final(eps, order, p, c, c')
  {
    if order != [] {
      var front, ep := order[..|order|-1], order[|order|-1];
      var m' := ResolveAll(m, eps, front);
      ResolutionMembers(m, eps, front, p, c');
      forall c ensures c in m'[p] <==> exists b :: b in m[p] && Final(eps, front, p, b, c)
      {
        ResolutionMembers(m, eps, front, p, c);
      }
      if Effective(eps, ep) {
        ResolvePeersMembers(m', eps[ep], ep.peer, eps[HolderKey(ep)], p, c');
      }
      if Hits(eps, ep, p, ep.peer) {
        SpreadLast(eps, order, p, m[p], m'[p], c');
      } else {
        forall b ensures Final(eps, order, p, b, c') == Final(eps, front, p, b, c') {
          assert !Hits(eps, ep, p, b.peer.name);
        }
      }
    }
  }

  lemma SpreadLast(eps: EpIndex, order: seq<EpKey>, p: Pid, cs: seq<Connection>, cs': seq<Connection>, c': Connection)
    requires order != [] && Hits(eps, order[|order|-1], p, order[|order|-1].peer)
    requires forall c :: c in cs' <==> exists b :: b in cs && Final(eps, order[..|order|-1], p, b, c)
    ensures (exists c :: c in cs' && Spread(c, c', order[|order|-1].peer, eps[HolderKey(order[|order|-1])])) <==>
            (exists b :: b in cs && Final(eps, order, p, b, c'))
  {
    var front, ep := order[..|order|-1], order[|order|-1];
    var selves := eps[HolderKey(ep)];
    if exists c :: c in cs' && Spread(c, c', ep.peer, selves) {
      var c :| c in cs' && Spread(c, c', ep.peer, selves);
      var b :| b in cs && Final(eps, front, p, b, c);
      assert b.peer.name == c.peer.name;
      assert Final(eps, order, p, b, c');
    }
    if exists b :: b in cs && Final(eps, order, p, b, c') {
      var b :| b in cs && Final(eps, order, p, b, c');
      assert b.peer.name == c'.peer.name;
      var c := match LastHit(eps, front, p, b.peer.name)
               case None => b
               case Some(k) => Retarget(b, eps[HolderKey(k)][0]);
      assert Final(eps, front, p, b, c);
      assert c in cs';
      if b.peer.name == ep.peer {
        assert Spread(c, c', ep.peer, selves);
      } else {
        assert Final(eps, front, p, b, c');
        assert c' in cs' && Spread(c', c', ep.peer, selves);
      }
    }
  }

  /** The original entries stay in place, and only their peer pid changes: to the first holder listed. */
  lemma {:induction false} ResolutionKeepsPrefix(m: EpMap, eps: EpIndex, order: seq<EpKey>, p: Pid, i: nat)
    requires p in m && i < |m[p]|
    ensures p in ResolveAll(m, eps, order)
    ensures |m[p]| <= |ResolveAll(m, eps, order)[p]|
    ensures ResolveAll(m, eps, order)[p][i] ==
            match LastHit(eps, order, p, m[p][i].peer.name)
            case None => m[p][i]
            case Some(ep) => Retarget(m[p][i], eps[HolderKey(ep)][0])
  {
    if order != [] {
      var front, ep := order[..|order|-1], order[|order|-1];
      ResolutionKeepsPrefix(m, eps, front, p, i);
      if Effective(eps, ep) {
        ResolvePeersPrefix(ResolveAll(m, eps, front), eps[ep], ep.peer, eps[HolderKey(ep)], p, i);
      }
    }
  }

  lemma {:induction false} ResolvePeersPrefix(m: EpMap, peers: seq<Pid>, name: string, selves: seq<Pid>, p: Pid, i: nat)
    requires selves != [] && p in m && i < |m[p]|
    ensures p in ResolvePeers(m, peers, name, selves)
    ensures |m[p]| <= |ResolvePeers(m, peers, name, selves)[p]|
    ensures ResolvePeers(m, peers, name, selves)[p][i] ==
            if p in peers && m[p][i].peer.name == name then Retarget(m[p][i], selves[0]) else m[p][i]
  {
    if peers != [] {
      assert peers == peers[..|peers|-1] + [peers[|peers|-1]];
      ResolvePeersPrefix(m, peers[..|peers|-1], name, selves, p, i);
    }
  }

  /** In the index that the code builds, that is the least holder. */
  lemma MovesToLeast(m: EpMap, eps: EpIndex, order: seq<EpKey>, p: Pid, i: nat)
    requires IndexOf(eps, m) && p in m && i < |m[p]|
    ensures p in ResolveAll(m, eps, order) && i < |ResolveAll(m, eps, order)[p]|
    ensures var c, c' := m[p][i], ResolveAll(m, eps, order)[p][i];
            match LastHit(eps, order, p, c.peer.name)
            case None => c' == c
            case Some(ep) => MovedTo(c, c', eps[HolderKey(ep)]) && forall h :: h in eps[HolderKey(ep)] ==> c'.peer.pid <= h
  {
    ResolutionKeepsPrefix(m, eps, order, p, i);
    var hit := LastHit(eps, order, p, m[p][i].peer.name);
    if hit.Some? {
      var holders := eps[HolderKey(hit.value)];
      assert Sorted(holders);
      forall h | h in holders ensures holders[0] <= h {
        var j :| 0 <= j < |holders| && holders[j] == h;
        assert j > 0 ==> holders[0] <= holders[j];
      }
    }
  }

  // ---------------------------------------------------------------- in terms of the connections alone

  /** Process `h` holds the endpoint that process `p` names as `name`: both ends have the same type. */
  ghost predicate PeerHolderOf(epm: EpMap, typ: string, p: Pid, name: string, h: Pid) {
    name != "" && MapRegisters(epm, EpKey(typ, "", name), p) && MapRegisters(epm, EpKey(typ, name, ""), h)
  }

  ghost predicate PeerHolder(epm: EpMap, p: Pid, name: string, h: Pid) {
    exists typ :: PeerHolderOf(epm, typ, p, name, h)
  }

  /** The set comprehension that the loops refine. */
  ghost predicate Resolved(epm: EpMap, p: Pid, c: Connection, c': Connection) {
    if exists h :: PeerHolder(epm, p, c.peer.name, h)
    then PeerHolder(epm, p, c.peer.name, c'.peer.pid) && c' == Retarget(c, c'.peer.pid)
    else c' == c
  }

  ghost predicate SameHolders(epm: EpMap, p: Pid, name: string) {
    forall typ, typ', h, h' ::
      PeerHolderOf(epm, typ, p, name, h) && PeerHolderOf(epm, typ', p, name, h') ==>
        PeerHolderOf(epm, typ', p, name, h)
  }

  /** When a process names a peer in connections of two types, both types give it the same holders. */
  ghost predicate Consistent(epm: EpMap) {
    forall p, c | p in epm && c in epm[p] :: SameHolders(epm, p, c.peer.name)
  }

  /** Some unresolved connection of this type names this peer. */
  ghost predicate Sought(epm: EpMap, typ: string, name: string) {
    exists p, c | p in epm && c in epm[p] :: c.peer.pid == 0 && c.typ == typ && c.peer.name == name
  }

  /** Unresolved connections that name the same peer have the same type. */
  ghost predicate OneTypePerPeer(epm: EpMap) {
    forall typ, typ', name :: Sought(epm, typ, name) && Sought(epm, typ', name) ==> typ == typ'
  }

  /** Every visit leaves every process with the same set of connections. */
  ghost predicate OrderIndependent(epm: EpMap, eps: EpIndex) {
    forall o, o', p, c | Enumerates(o, eps.Keys) && Enumerates(o', eps.Keys) && p in epm
      && p in ResolveAll(epm, eps, o) && p in ResolveAll(epm, eps, o') ::
      c in ResolveAll(epm, eps, o)[p] ==> c in ResolveAll(epm, eps, o')[p]
  }

  lemma HitsHolders(epm: EpMap, eps: EpIndex, ep: EpKey, p: Pid, name: string, h: Pid)
    requires IndexOf(eps, epm)
    ensures Hits(eps, ep, p, name) && h in eps[HolderKey(ep)] ==>
            ep == EpKey(ep.typ, "", name) && PeerHolderOf(epm, ep.typ, p, name, h)
  {
    if Hits(eps, ep, p, name) && h in eps[HolderKey(ep)] {
      assert InIndex(eps, ep, p) && InIndex(eps, HolderKey(ep), h);
      assert MapRegisters(epm, ep, p);
      assert ep.self == "";
    }
  }

  lemma HoldersHit(epm: EpMap, eps: EpIndex, typ: string, p: Pid, name: string, h: Pid)
    requires IndexOf(eps, epm) && PeerHolderOf(epm, typ, p, name, h)
    ensures Hits(eps, EpKey(typ, "", name), p, name)
    ensures h in eps[EpKey(typ, name, "")]
  {
    assert InIndex(eps, EpKey(typ, "", name), p) && InIndex(eps, EpKey(typ, name, ""), h);
  }

  lemma HeldIsSought(epm: EpMap, typ: string, p: Pid, name: string, h: Pid)
    requires PeerHolderOf(epm, typ, p, name, h)
    ensures Sought(epm, typ, name)
  {
    var q :| q in epm && SeqRegisters(epm[q], EpKey(typ, "", name), p);
    var c :| c in epm[q] && Registers(c, EpKey(typ, "", name)) && c.self.pid == p;
  }

  lemma OneTypeIsConsistent(epm: EpMap)
    requires OneTypePerPeer(epm)
    ensures Consistent(epm)
  {
    forall p, c | p in epm && c in epm[p]
      ensures SameHolders(epm, p, c.peer.name)
    {
      forall typ, typ', h, h' | PeerHolderOf(epm, typ, p, c.peer.name, h) && PeerHolderOf(epm, typ', p, c.peer.name, h')
        ensures PeerHolderOf(epm, typ', p, c.peer.name, h)
      {
        HeldIsSought(epm, typ, p, c.peer.name, h);
        HeldIsSought(epm, typ', p, c.peer.name, h');
      }
    }
  }

  /** The loops refine the set comprehension, for every order in which Go visits the maps. */
  lemma ResolutionRefines(epm: EpMap, eps: EpIndex, order: seq<EpKey>, p: Pid, c': Connection)
    requires IndexOf(eps, epm) && Enumerates(order, eps.Keys) && Consistent(epm) && p in epm
    ensures ResolveAll(epm, eps, order).Keys == epm.Keys
    ensures c' in ResolveAll(epm, eps, order)[p] <==> exists c :: c in epm[p] && Resolved(epm, p, c, c')
  {
    ResolutionMembers(epm, eps, order, p, c');
    forall c | c in epm[p]
      ensures Final(eps, order, p, c, c') <==> Resolved(epm, p, c, c')
    {
      FinalIsResolved(epm, eps, order, p, c, c');
    }
  }

  lemma FinalIsResolved(epm: EpMap, eps: EpIndex, order: seq<EpKey>, p: Pid, c: Connection, c': Connection)
    requires IndexOf(eps, epm) && Enumerates(order, eps.Keys) && Consistent(epm) && p in epm && c in epm[p]
    ensures Final(eps, order, p, c, c') <==> Resolved(epm, p, c, c')
  {
    var name := c.peer.name;
    match LastHit(eps, order, p, name)
    case None =>
      forall typ, h ensures !PeerHolderOf(epm, typ, p, name, h) {
        if PeerHolderOf(epm, typ, p, name, h) {
          HoldersHit(epm, eps, typ, p, name, h);
          assert false;
        }
      }
    case Some(ep) =>
      var least := eps[HolderKey(ep)][0];
      HitsHolders(epm, eps, ep, p, name, least);
      assert PeerHolder(epm, p, name, least);
      forall h ensures h in eps[HolderKey(ep)] <==> PeerHolder(epm, p, name, h) {
        HitsHolders(epm, eps, ep, p, name, h);
        if PeerHolder(epm, p, name, h) {
          var typ :| PeerHolderOf(epm, typ, p, name, h);
          assert SameHolders(epm, p, c.peer.name);
          assert PeerHolderOf(epm, ep.typ, p, name, h);
          HoldersHit(epm, eps, ep.typ, p, name, h);
        }
      }
  }

  /** Exactly when the result does not depend on map order. */
  lemma OrderIndependence(epm: EpMap, eps: EpIndex)
    requires IndexOf(eps, epm)
    ensures OrderIndependent(epm, eps) <==> Consistent(epm)
  {
    if Consistent(epm) {
      forall o, o', p, c | Enumerates(o, eps.Keys) && Enumerates(o', eps.Keys) && p in epm
        && p in ResolveAll(epm, eps, o) && p in ResolveAll(epm, eps, o')
        && c in ResolveAll(epm, eps, o)[p]
        ensures c in ResolveAll(epm, eps, o')[p]
      {
        ResolutionRefines(epm, eps, o, p, c);
        ResolutionRefines(epm, eps, o', p, c);
      }
    }
    if OrderIndependent(epm, eps) {
      forall p, c | p in epm && c in epm[p]
        ensures SameHolders(epm, p, c.peer.name)
      {
        forall typ, typ', h, h' | PeerHolderOf(epm, typ, p, c.peer.name, h) && PeerHolderOf(epm, typ', p, c.peer.name, h')
          ensures PeerHolderOf(epm, typ', p, c.peer.name, h)
        {
          LastKeyDecides(epm, eps, p, c, typ, typ', h, h');
        }
      }
    }
  }

  lemma LastKeyDecides(epm: EpMap, eps: EpIndex, p: Pid, c: Connection, typ: string, typ': string, h: Pid, h': Pid)
    requires IndexOf(eps, epm) && OrderIndependent(epm, eps) && p in epm && c in epm[p]
    requires PeerHolderOf(epm, typ, p, c.peer.name, h) && PeerHolderOf(epm, typ', p, c.peer.name, h')
    ensures PeerHolderOf(epm, typ', p, c.peer.name, h)
  {
    var name := c.peer.name;
    var k, k' := EpKey(typ, "", name), EpKey(typ', "", name);
    HoldersHit(epm, eps, typ, p, name, h);
    HoldersHit(epm, eps, typ', p, name, h');
    var o := EndingWith(eps.Keys, k);
    var o' := EndingWith(eps.Keys, k');
    var moved := Retarget(c, h);
    assert Final(eps, o, p, c, moved);
    ResolutionMembers(epm, eps, o, p, moved);
    ResolutionMembers(epm, eps, o', p, moved);
    assert moved in ResolveAll(epm, eps, o')[p];
    var b :| b in epm[p] && Final(eps, o', p, b, moved);
    assert b.peer.name == name;
    assert h in eps[HolderKey(k')];
    HitsHolders(epm, eps, k', p, name, h);
  }

  // ---------------------------------------------------------------- which connections ask, and which hold

  /** A named unix socket: it names its own end, and a file as its peer. */
  predicate FileSocket(c: Connection) {
    c.typ == "unix" && c.self.name != "" && c.peer.name != "" && c.peer.name[0] == '/'
  }

  /** Some unresolved connection of the process, other than a named socket, names the peer. */
  ghost predicate AsksFor(epm: EpMap, typ: string, p: Pid, name: string) {
    p in epm && exists c :: c in epm[p] && c.typ == typ && c.peer.name == name && c.peer.pid == 0 && !FileSocket(c)
  }

  /** Some connection of the process has this name at its own end, and is a named socket or unresolved. */
  ghost predicate HoldsEnd(epm: EpMap, typ: string, name: string, h: Pid) {
    h in epm && exists d :: d in epm[h] && d.typ == typ && d.self.name == name && (FileSocket(d) || d.peer.pid == 0)
  }

  lemma RegistersOwn(epm: EpMap, k: EpKey, pid: Pid)
    requires KeyedByPid(epm)
    ensures MapRegisters(epm, k, pid) <==> pid in epm && exists c :: c in epm[pid] && Registers(c, k)
  {
    if MapRegisters(epm, k, pid) {
      var p :| p in epm && SeqRegisters(epm[p], k, pid);
      var c :| c in epm[p] && Registers(c, k) && c.self.pid == pid;
      var i :| 0 <= i < |epm[p]| && epm[p][i] == c;
      assert epm[p][i].self.pid == p;
    }
    if pid in epm && exists c :: c in epm[pid] && Registers(c, k) {
      var c :| c in epm[pid] && Registers(c, k);
      var i :| 0 <= i < |epm[pid]| && epm[pid][i] == c;
      assert epm[pid][i].self.pid == pid;
      assert SeqRegisters(epm[pid], k, pid);
    }
  }

  /** Exactly which connections make one process the holder of another's peer. */
  lemma PeerHolderIff(epm: EpMap, typ: string, p: Pid, name: string, h: Pid)
    requires KeyedByPid(epm)
    ensures PeerHolderOf(epm, typ, p, name, h) <==> name != "" && AsksFor(epm, typ, p, name) && HoldsEnd(epm, typ, name, h)
  {
    RegistersOwn(epm, EpKey(typ, "", name), p);
    RegistersOwn(epm, EpKey(typ, name, ""), h);
    if name != "" && p in epm {
      forall c | c in epm[p]
        ensures Registers(c, EpKey(typ, "", name)) <==> c.typ == typ && c.peer.name == name && c.peer.pid == 0 && !FileSocket(c)
      {
      }
    }
    if name != "" && h in epm {
      forall d | d in epm[h]
        ensures Registers(d, EpKey(typ, name, "")) <==> d.typ == typ && d.self.name == name && (FileSocket(d) || d.peer.pid == 0)
      {
      }
    }
  }

  /** Two unresolved connections of one type, the first of which names the other's own end, are joined by every visit of a
      consistent map, unless the first is a named socket: the first process has the second's pid among its copies. */
  lemma NamedPeerIsResolved(epm: EpMap, eps: EpIndex, order: seq<EpKey>, p: Pid, q: Pid, c: Connection, d: Connection)
    requires IndexOf(eps, epm) && Enumerates(order, eps.Keys) && Consistent(epm) && KeyedByPid(epm)
    requires p in epm && c in epm[p] && q in epm && d in epm[q]
    requires c.typ == d.typ && c.peer.name == d.self.name != "" && c.peer.pid == 0 && d.peer.pid == 0
    requires c.typ == "unix" && c.peer.name[0] == '/' ==> c.self.name == ""
    ensures p in ResolveAll(epm, eps, order)
    ensures Connection(c.typ, c.self, Endpoint(c.peer.name, q)) in ResolveAll(epm, eps, order)[p]
  {
    var c' := Connection(c.typ, c.self, Endpoint(c.peer.name, q));
    assert AsksFor(epm, c.typ, p, c.peer.name) && HoldsEnd(epm, c.typ, c.peer.name, q);
    PeerHolderIff(epm, c.typ, p, c.peer.name, q);
    assert PeerHolder(epm, p, c.peer.name, q);
    assert Resolved(epm, p, c, c');
    ResolutionRefines(epm, eps, order, p, c');
  }

  /** So are a connection and the named socket whose own end it names. */
  lemma NamedSocketIsFound(epm: EpMap, eps: EpIndex, order: seq<EpKey>, p: Pid, q: Pid, c: Connection, d: Connection)
    requires IndexOf(eps, epm) && Enumerates(order, eps.Keys) && Consistent(epm) && KeyedByPid(epm)
    requires p in epm && c in epm[p] && q in epm && d in epm[q]
    requires c.typ == d.typ == "unix" && c.peer.name == d.self.name != "" && c.peer.pid == 0 && c.peer.name[0] != '/'
    requires d.peer.name != "" && d.peer.name[0] == '/'
    ensures p in ResolveAll(epm, eps, order)
    ensures Connection(c.typ, c.self, Endpoint(c.peer.name, q)) in ResolveAll(epm, eps, order)[p]
  {
    var c' := Connection(c.typ, c.self, Endpoint(c.peer.name, q));
    assert AsksFor(epm, c.typ, p, c.peer.name) && HoldsEnd(epm, c.typ, c.peer.name, q);
    PeerHolderIff(epm, c.typ, p, c.peer.name, q);
    assert PeerHolder(epm, p, c.peer.name, q);
    assert Resolved(epm, p, c, c');
    ResolutionRefines(epm, eps, order, p, c');
  }

  /** A named socket never asks for its peer: where a process names a peer only in these, and in connections that are
      resolved already, every visit leaves them as they are. */
  lemma NamedSocketNeverAsks(epm: EpMap, eps: EpIndex, order: seq<EpKey>, p: Pid, name: string, c: Connection)
    requires IndexOf(eps, epm) && KeyedByPid(epm) && p in epm && c.peer.name == name
    requires forall b :: b in epm[p] && b.peer.name == name ==>
               b.peer.pid != 0 || (b.typ == "unix" && b.self.name != "" && name != "" && name[0] == '/')
    ensures p in ResolveAll(epm, eps, order)
    ensures c in ResolveAll(epm, eps, order)[p] <==> c in epm[p]
  {
    ResolutionMembers(epm, eps, order, p, c);
    var hit := LastHit(eps, order, p, name);
    if hit.Some? {
      var h := eps[HolderKey(hit.value)][0];
      HitsHolders(epm, eps, hit.value, p, name, h);
      PeerHolderIff(epm, hit.value.typ, p, name, h);
      assert false;
    }
    forall b | b in epm[p] && Final(eps, order, p, b, c) ensures b == c {
      FinalKeepsName(eps, order, p, b, c);
    }
  }

  lemma FinalKeepsName(eps: EpIndex, order: seq<EpKey>, p: Pid, b: Connection, c: Connection)
    requires Final(eps, order, p, b, c)
    ensures b.peer.name == c.peer.name
  {
  }

  const PIPE := Connection("PIPE", Endpoint("a", 1), Endpoint("x", 0))
  const FIFO := Connection("FIFO", Endpoint("b", 1), Endpoint("x", 0))
  const PIPE_HOLDER := Connection("PIPE", Endpoint("x", 2), Endpoint("y", 0))
  const FIFO_HOLDER := Connection("FIFO", Endpoint("x", 3), Endpoint("z", 0))

  /** Process 1 names one peer in connections of two types, with a holder each. */
  const MIXED: EpMap := map[1 := [PIPE, FIFO], 2 := [PIPE_HOLDER], 3 := [FIFO_HOLDER]]

  lemma MixedIsInconsistent()
    ensures !Consistent(MIXED)
  {
    assert PIPE in MIXED[1] && FIFO in MIXED[1] && PIPE_HOLDER in MIXED[2] && FIFO_HOLDER in MIXED[3];
    assert Registers(PIPE, EpKey("PIPE", "", "x")) && Registers(FIFO, EpKey("FIFO", "", "x"));
    assert Registers(PIPE_HOLDER, EpKey("PIPE", "x", "")) && Registers(FIFO_HOLDER, EpKey("FIFO", "x", ""));
    assert SeqRegisters(MIXED[1], EpKey("PIPE", "", "x"), 1) && SeqRegisters(MIXED[1], EpKey("FIFO", "", "x"), 1);
    assert SeqRegisters(MIXED[2], EpKey("PIPE", "x", ""), 2) && SeqRegisters(MIXED[3], EpKey("FIFO", "x", ""), 3);
    assert PeerHolderOf(MIXED, "PIPE", 1, "x", 2) && PeerHolderOf(MIXED, "FIFO", 1, "x", 3);
    assert !PeerHolderOf(MIXED, "FIFO", 1, "x", 2);
    assert !SameHolders(MIXED, 1, PIPE.peer.name);
  }

  /** Two types under one name: the visit order shows in the result. */
  lemma MixedTypesDependOnOrder(eps: EpIndex)
    requires IndexOf(eps, MIXED)
    ensures !OrderIndependent(MIXED, eps)
  {
    MixedIsInconsistent();
    OrderIndependence(MIXED, eps);
  }
}
