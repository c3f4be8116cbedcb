/** Which hosts, data nodes, processes and edges the report of process/nodegraph.go shows, read off the process table. */
module GraphReport {
  import opened Collections
  import opened ProcessTypes
  import opened Forest
  import opened GraphContents

  // ---------------------------------------------------------------- what the report shows

  /** A selected process lists a connection to this peer. */
  ghost predicate Lists(tb: Table, pt: set<Pid>, p: Pid, peer: Pid) {
    p in pt && p in tb && exists c :: c in tb[p].connections && c.peer.pid == peer
  }

  ghost predicate IsListed(tb: Table, pt: set<Pid>, c: Connection) {
    exists p :: p in pt && p in tb && c in tb[p].connections
  }

  /** A process with connections to hosts and data nodes that the query shows: any but process 0, or the one asked for. */
  predicate Asked(query: Pid, p: Pid) {
    if query == 0 then p != 0 else p == query
  }

  ghost predicate ShowsHost(tb: Table, query: Pid, pt: set<Pid>, h: Pid) {
    h < 0 && exists p :: Asked(query, p) && Lists(tb, pt, p, h)
  }

  /** Only the query for one process shows data nodes. */
  ghost predicate ShowsData(tb: Table, query: Pid, pt: set<Pid>, d: Pid) {
    d >= MAX_INT32 && query > 0 && Lists(tb, pt, query, d)
  }

  /** Two processes one of which lists a connection to the other. */
  ghost predicate Joined(tb: Table, pt: set<Pid>, p: Pid, q: Pid) {
    0 < p < MAX_INT32 && 0 < q < MAX_INT32 && p != q && (Lists(tb, pt, p, q) || Lists(tb, pt, q, p))
  }

  ghost predicate ShowsProcess(tb: Table, tr: seq<Tree>, pt: set<Pid>, q: Pid) {
    q in pt || exists p, peer ::
      p != 0 && p != peer && 0 < peer < MAX_INT32 && Lists(tb, pt, p, peer) && (q == peer || q in Ancestors(tr, peer))
  }

  /** A host's edge goes to the process, a data node's comes from it, and one between processes goes from that with fewer
      ancestors, or with as many and the lower pid. */
  ghost predicate ShowsEdge(tb: Table, tr: seq<Tree>, query: Pid, pt: set<Pid>, a: Pid, b: Pid) {
    if a < 0 then Asked(query, b) && Lists(tb, pt, b, a)
    else if b >= MAX_INT32 then query > 0 && a == query && Lists(tb, pt, a, b)
    else Joined(tb, pt, a, b) && (Depth(tr, a) < Depth(tr, b) || (Depth(tr, a) == Depth(tr, b) && a < b))
  }

  /** The report on the connections, and with parents joined to their children. */
  ghost predicate Shows(g: Contents, tb: Table, tr: seq<Tree>, query: Pid, pt: set<Pid>, links: seq<(Pid, Pid)>) {
    && (forall h :: h in g.hosts <==> ShowsHost(tb, query, pt, h))
    && (forall h :: h in g.hosts ==> g.hosts[h].peer.pid == h && IsListed(tb, pt, g.hosts[h]))
    && (forall d :: d in g.datas <==> ShowsData(tb, query, pt, d))
    && (forall d :: d in g.datas ==> g.datas[d].peer.pid == d && IsListed(tb, pt, g.datas[d]))
    && (forall q :: q in g.included <==> ShowsProcess(tb, tr, pt, q))
    && (forall a, b :: (a, b) in g.edges <==> ShowsEdge(tb, tr, query, pt, a, b) || (a, b) in links)
  }

  // ---------------------------------------------------------------- the events

  ghost predicate FromConnection(tb: Table, tr: seq<Tree>, query: Pid, p: Pid, c: Connection, e: Event) {
    p in tb && c in tb[p].connections && !Skips(query, c) && e == ConnEvent(tr, c)
  }

  lemma {:induction false} ConnEventsFrom(tr: seq<Tree>, query: Pid, cs: seq<Connection>, e: Event)
    ensures e in ConnEvents(tr, query, cs) <==> exists c :: c in cs && !Skips(query, c) && e == ConnEvent(tr, c)
  {
    if cs != [] {
      assert cs == cs[..|cs|-1] + [cs[|cs|-1]];
      ConnEventsFrom(tr, query, cs[..|cs|-1], e);
    }
  }

  lemma {:induction false} TableEventsFrom(tb: Table, tr: seq<Tree>, query: Pid, order: seq<Pid>, e: Event)
    ensures e in TableEvents(tb, tr, query, order) <==> exists p, c :: p in order && FromConnection(tb, tr, query, p, c, e)
  {
    if order != [] {
      var front, last := order[..|order|-1], order[|order|-1];
      assert order == front + [last];
      TableEventsFrom(tb, tr, query, front, e);
      if last in tb {
        ConnEventsFrom(tr, query, tb[last].connections, e);
        if e in ConnEvents(tr, query, tb[last].connections) {
          var c :| c in tb[last].connections && !Skips(query, c) && e == ConnEvent(tr, c);
          assert FromConnection(tb, tr, query, last, c, e);
        }
      }
    }
  }

  /** What a fold of events collects. */
  lemma {:induction false} Collects(es: seq<Event>, h: Pid)
    ensures h in AddAll(EMPTY, es).hosts <==> exists e :: e in es && e.seed.HostSeed? && e.id.0 == h
    ensures h in AddAll(EMPTY, es).datas <==> exists e :: e in es && e.seed.DataSeed? && e.id.1 == h
    ensures h in AddAll(EMPTY, es).included <==> exists e :: e in es && h in e.adds
    ensures h in AddAll(EMPTY, es).hosts ==> exists e :: e in es && e.id.0 == h && e.seed == HostSeed(AddAll(EMPTY, es).hosts[h])
    ensures h in AddAll(EMPTY, es).datas ==> exists e :: e in es && e.id.1 == h && e.seed == DataSeed(AddAll(EMPTY, es).datas[h])
  {
    if es != [] {
      assert es == es[..|es|-1] + [es[|es|-1]];
      Collects(es[..|es|-1], h);
    }
  }

  // ---------------------------------------------------------------- one connection

  /** Which connections of a process are reported, by the peer alone. */
  lemma ReportedPeer(query: Pid, p: Pid, c: Connection)
    requires query >= 0 && IsProcess(p) && c.self.pid == p
    ensures c.peer.pid < 0 || c.peer.pid >= MAX_INT32 ==>
              (!Skips(query, c) <==> Asked(query, p) && (query == 0 ==> c.peer.pid < 0))
    ensures 0 <= c.peer.pid < MAX_INT32 ==> (!Skips(query, c) <==> p != 0 && c.peer.pid != 0 && p != c.peer.pid)
  {
  }

  /** The selected process `p` lists `c`, which is reported. */
  ghost predicate Reports(tb: Table, query: Pid, pt: set<Pid>, p: Pid, c: Connection) {
    p in pt && p in tb && c in tb[p].connections && !Skips(query, c)
  }

  lemma ListsReports(tb: Table, query: Pid, pt: set<Pid>, p: Pid, peer: Pid)
    requires ValidTable(tb) && query >= 0
    ensures (exists c :: Reports(tb, query, pt, p, c) && c.peer.pid == peer) <==>
            Lists(tb, pt, p, peer)
            && if peer < 0 then Asked(query, p)
               else if peer >= MAX_INT32 then query > 0 && p == query
               else p != 0 && peer != 0 && p != peer
  {
    if p in pt && p in tb {
      forall c | c in tb[p].connections && c.peer.pid == peer
        ensures Reports(tb, query, pt, p, c) <==>
                if peer < 0 then Asked(query, p)
                else if peer >= MAX_INT32 then query > 0 && p == query
                else p != 0 && peer != 0 && p != peer
      {
        ReportedPeer(query, p, c);
      }
    }
  }

  lemma EventFrom(tb: Table, tr: seq<Tree>, query: Pid, order: seq<Pid>, pt: set<Pid>, e: Event)
    requires Enumerates(order, pt)
    ensures e in TableEvents(tb, tr, query, order) <==> exists p, c :: Reports(tb, query, pt, p, c) && e == ConnEvent(tr, c)
  {
    TableEventsFrom(tb, tr, query, order, e);
    assert forall p :: p in order <==> p in SetOf(order);
    if e in TableEvents(tb, tr, query, order) {
      var p, c :| p in order && FromConnection(tb, tr, query, p, c, e);
      assert Reports(tb, query, pt, p, c);
    }
    if exists p, c :: Reports(tb, query, pt, p, c) && e == ConnEvent(tr, c) {
      var p, c :| Reports(tb, query, pt, p, c) && e == ConnEvent(tr, c);
      assert FromConnection(tb, tr, query, p, c, e);
    }
  }

  // ---------------------------------------------------------------- nodes

  lemma HostShown(tb: Table, tr: seq<Tree>, query: Pid, order: seq<Pid>, pt: set<Pid>, h: Pid)
    requires ValidTable(tb) && query >= 0 && Enumerates(order, pt)
    ensures var hosts := AddAll(EMPTY, TableEvents(tb, tr, query, order)).hosts;
            && (h in hosts <==> ShowsHost(tb, query, pt, h))
            && (h in hosts ==> hosts[h].peer.pid == h && IsListed(tb, pt, hosts[h]))
  {
    var es := TableEvents(tb, tr, query, order);
    Collects(es, h);
    if h in AddAll(EMPTY, es).hosts {
      var e :| e in es && e.id.0 == h && e.seed == HostSeed(AddAll(EMPTY, es).hosts[h]);
      EventFrom(tb, tr, query, order, pt, e);
      var p, c :| Reports(tb, query, pt, p, c) && e == ConnEvent(tr, c);
      ListsReports(tb, query, pt, p, h);
    }
    if ShowsHost(tb, query, pt, h) {
      var p :| Asked(query, p) && Lists(tb, pt, p, h);
      ListsReports(tb, query, pt, p, h);
      var c :| Reports(tb, query, pt, p, c) && c.peer.pid == h;
      EventFrom(tb, tr, query, order, pt, ConnEvent(tr, c));
    }
  }

  lemma DataShown(tb: Table, tr: seq<Tree>, query: Pid, order: seq<Pid>, pt: set<Pid>, d: Pid)
    requires ValidTable(tb) && query >= 0 && Enumerates(order, pt)
    ensures var datas := AddAll(EMPTY, TableEvents(tb, tr, query, order)).datas;
            && (d in datas <==> ShowsData(tb, query, pt, d))
            && (d in datas ==> datas[d].peer.pid == d && IsListed(tb, pt, datas[d]))
  {
    var es := TableEvents(tb, tr, query, order);
    Collects(es, d);
    if d in AddAll(EMPTY, es).datas {
      var e :| e in es && e.id.1 == d && e.seed == DataSeed(AddAll(EMPTY, es).datas[d]);
      EventFrom(tb, tr, query, order, pt, e);
      var p, c :| Reports(tb, query, pt, p, c) && e == ConnEvent(tr, c);
      ListsReports(tb, query, pt, p, d);
    }
    if ShowsData(tb, query, pt, d) {
      ListsReports(tb, query, pt, query, d);
      var c :| Reports(tb, query, pt, query, c) && c.peer.pid == d;
      EventFrom(tb, tr, query, order, pt, ConnEvent(tr, c));
    }
  }

  lemma ProcessShown(tb: Table, tr: seq<Tree>, query: Pid, order: seq<Pid>, pt: set<Pid>, q: Pid)
    requires ValidTable(tb) && query >= 0 && Enumerates(order, pt)
    ensures q in Include(AddAll(EMPTY, TableEvents(tb, tr, query, order)), pt).included <==> ShowsProcess(tb, tr, pt, q)
  {
    Collects(TableEvents(tb, tr, query, order), q);
    if e :| e in TableEvents(tb, tr, query, order) && q in e.adds {
      AddedIsShown(tb, tr, query, order, pt, q, e);
    }
    if p, peer :| p != 0 && p != peer && 0 < peer < MAX_INT32 && Lists(tb, pt, p, peer) && (q == peer || q in Ancestors(tr, peer)) {
      ListsReports(tb, query, pt, p, peer);
      var c :| Reports(tb, query, pt, p, c) && c.peer.pid == peer;
      EventFrom(tb, tr, query, order, pt, ConnEvent(tr, c));
      assert q in ConnEvent(tr, c).adds;
    }
  }

  lemma AddedIsShown(tb: Table, tr: seq<Tree>, query: Pid, order: seq<Pid>, pt: set<Pid>, q: Pid, e: Event)
    requires ValidTable(tb) && query >= 0 && Enumerates(order, pt)
    requires e in TableEvents(tb, tr, query, order) && q in e.adds
    ensures ShowsProcess(tb, tr, pt, q)
  {
    EventFrom(tb, tr, query, order, pt, e);
    var p, c :| Reports(tb, query, pt, p, c) && e == ConnEvent(tr, c);
    ListsReports(tb, query, pt, p, c.peer.pid);
  }

  /** No nil process is included exactly when each process that a selected one other than process 0 is connected to is in
      the table, process 0 aside. */
  lemma PeersKnownIff(tb: Table, query: Pid, pt: set<Pid>)
    requires ValidTable(tb) && query >= 0
    ensures PeersKnown(tb, query, pt) <==>
            forall p, peer :: p != 0 && 0 < peer < MAX_INT32 && Lists(tb, pt, p, peer) ==> peer in tb
  {
    if PeersKnown(tb, query, pt) {
      forall p, peer | p != 0 && 0 < peer < MAX_INT32 && Lists(tb, pt, p, peer) ensures peer in tb {
        if p != peer {
          ListsReports(tb, query, pt, p, peer);
          var c :| Reports(tb, query, pt, p, c) && c.peer.pid == peer;
          assert PeerKnown(tb, query, c);
        }
      }
    }
    if forall p, peer :: p != 0 && 0 < peer < MAX_INT32 && Lists(tb, pt, p, peer) ==> peer in tb {
      forall p, c | p in pt && p in tb && c in tb[p].connections ensures PeerKnown(tb, query, c) {
        ReportedPeer(query, p, c);
        assert Lists(tb, pt, p, c.peer.pid);
      }
    }
  }

  // ---------------------------------------------------------------- edges

  /** The edge of a connection between process `p` and its peer. */
  function EdgeOf(tr: seq<Tree>, p: Pid, peer: Pid): EdgeId {
    if peer < 0 then (peer, p)
    else if peer >= MAX_INT32 then (p, peer)
    else if Depth(tr, p) < Depth(tr, peer) || (Depth(tr, p) == Depth(tr, peer) && p <= peer) then (p, peer)
    else (peer, p)
  }

  lemma EdgeShown(tb: Table, tr: seq<Tree>, query: Pid, order: seq<Pid>, pt: set<Pid>, a: Pid, b: Pid)
    requires ValidTable(tb) && query >= 0 && Enumerates(order, pt)
    ensures (exists e :: e in TableEvents(tb, tr, query, order) && e.id == (a, b)) <==> ShowsEdge(tb, tr, query, pt, a, b)
  {
    if e :| e in TableEvents(tb, tr, query, order) && e.id == (a, b) {
      IdIsShown(tb, tr, query, order, pt, e);
    }
    if ShowsEdge(tb, tr, query, pt, a, b) {
      var p, peer := EndsOf(tb, tr, query, pt, a, b);
      var c :| Reports(tb, query, pt, p, c) && c.peer.pid == peer;
      EventFrom(tb, tr, query, order, pt, ConnEvent(tr, c));
      assert c.self.pid == p && ConnEvent(tr, c).id == EdgeOf(tr, p, peer);
    }
  }

  lemma IdIsShown(tb: Table, tr: seq<Tree>, query: Pid, order: seq<Pid>, pt: set<Pid>, e: Event)
    requires ValidTable(tb) && query >= 0 && Enumerates(order, pt) && e in TableEvents(tb, tr, query, order)
    ensures ShowsEdge(tb, tr, query, pt, e.id.0, e.id.1)
  {
    EventFrom(tb, tr, query, order, pt, e);
    var p, c :| Reports(tb, query, pt, p, c) && e == ConnEvent(tr, c);
    ListsReports(tb, query, pt, p, c.peer.pid);
    assert c.self.pid == p && EdgeOf(tr, p, c.peer.pid) == e.id;
  }

  lemma EndsOf(tb: Table, tr: seq<Tree>, query: Pid, pt: set<Pid>, a: Pid, b: Pid) returns (p: Pid, peer: Pid)
    requires ValidTable(tb) && query >= 0 && ShowsEdge(tb, tr, query, pt, a, b)
    ensures EdgeOf(tr, p, peer) == (a, b) && exists c :: Reports(tb, query, pt, p, c) && c.peer.pid == peer
  {
    p, peer := if a < 0 || (b < MAX_INT32 && Lists(tb, pt, b, a)) then b else a, if a < 0 || (b < MAX_INT32 && Lists(tb, pt, b, a)) then a else b;
    ListsReports(tb, query, pt, p, peer);
  }

  lemma EdgesShown(tb: Table, tr: seq<Tree>, query: Pid, order: seq<Pid>, pt: set<Pid>, links: seq<(Pid, Pid)>, a: Pid, b: Pid)
    requires ValidTable(tb) && query >= 0 && Enumerates(order, pt)
    ensures (a, b) in AddAll(EMPTY, TableEvents(tb, tr, query, order) + ParentEvents(links)).edges <==>
            ShowsEdge(tb, tr, query, pt, a, b) || (a, b) in links
  {
    var es, parents := TableEvents(tb, tr, query, order), ParentEvents(links);
    EdgeIds(EMPTY, es + parents, (a, b));
    EdgeShown(tb, tr, query, order, pt, a, b);
    if (a, b) in links {
      var i :| 0 <= i < |links| && links[i] == (a, b);
      assert parents[i] in es + parents && parents[i].id == (a, b);
    }
    if e :| e in es && e.id == (a, b) {
      assert e in es + parents;
    }
  }

  // ---------------------------------------------------------------- the report

  lemma {:induction false} ParentsShowNothing(g: Contents, links: seq<(Pid, Pid)>)
    ensures var r := AddAll(g, ParentEvents(links)); r.hosts == g.hosts && r.datas == g.datas && r.included == g.included
  {
    if links != [] {
      assert ParentEvents(links)[..|links|-1] == ParentEvents(links[..|links|-1]);
      ParentsShowNothing(g, links[..|links|-1]);
    }
  }

  /** The finished report shows exactly the hosts, data nodes, processes and edges that the table calls for. */
  lemma ReportShows(tb: Table, tr: seq<Tree>, query: Pid, order: seq<Pid>, pt: set<Pid>, links: seq<(Pid, Pid)>)
    requires ValidTable(tb) && query >= 0 && Enumerates(order, pt)
    ensures Shows(Include(AddAll(EMPTY, TableEvents(tb, tr, query, order) + ParentEvents(links)), pt), tb, tr, query, pt, links)
  {
    var es := TableEvents(tb, tr, query, order);
    var g, r := AddAll(EMPTY, es), AddAll(EMPTY, es + ParentEvents(links));
    AddAllConcat(EMPTY, es, ParentEvents(links));
    ParentsShowNothing(g, links);
    forall h
      ensures h in r.hosts <==> ShowsHost(tb, query, pt, h)
      ensures h in r.hosts ==> r.hosts[h].peer.pid == h && IsListed(tb, pt, r.hosts[h])
    {
      HostShown(tb, tr, query, order, pt, h);
    }
    forall d
      ensures d in r.datas <==> ShowsData(tb, query, pt, d)
      ensures d in r.datas ==> r.datas[d].peer.pid == d && IsListed(tb, pt, r.datas[d])
    {
      DataShown(tb, tr, query, order, pt, d);
    }
    forall q ensures q in Include(r, pt).included <==> ShowsProcess(tb, tr, pt, q) {
      ProcessShown(tb, tr, query, order, pt, q);
    }
    forall a, b ensures (a, b) in r.edges <==> ShowsEdge(tb, tr, query, pt, a, b) || (a, b) in links {
      EdgesShown(tb, tr, query, order, pt, links, a, b);
    }
  }

  lemma ConnectionsShow(tb: Table, tr: seq<Tree>, query: Pid, order: seq<Pid>, pt: set<Pid>)
    requires ValidTable(tb) && query >= 0 && Enumerates(order, pt)
    ensures Shows(Include(AddAll(EMPTY, TableEvents(tb, tr, query, order)), pt), tb, tr, query, pt, [])
  {
    var none: seq<(Pid, Pid)> := [];
    ReportShows(tb, tr, query, order, pt, none);
    assert TableEvents(tb, tr, query, order) + ParentEvents(none) == TableEvents(tb, tr, query, order);
  }

  // ---------------------------------------------------------------- the lines

  /** The line that process `p` gets for its connection: from the host, to the data node, or along the edge between the
      processes, each with its own name for its end. */
  function LineOf(tr: seq<Tree>, p: Pid, c: Connection): Line {
    if c.peer.pid < 0 then HostLine(c.typ, c.peer.name, c.self.name, p)
    else if c.peer.pid >= MAX_INT32 then DataLine(p, c.typ, c.peer.name)
    else if EdgeOf(tr, p, c.peer.pid) == (p, c.peer.pid) then ProcLine(c.typ, c.self.name, p, c.peer.name, c.peer.pid)
    else ProcLine(c.typ, c.peer.name, c.peer.pid, c.self.name, p)
  }

  lemma {:induction false} OnOwnEdge(es: seq<Event>, e: Event)
    requires e in es
    ensures e in OnEdge(es, {e.id})
  {
    assert es == es[..|es|-1] + [es[|es|-1]];
    if e in es[..|es|-1] {
      OnOwnEdge(es[..|es|-1], e);
    }
  }

  lemma EventLine(es: seq<Event>, e: Event)
    requires e in es
    ensures e.id in AddAll(EMPTY, es).edges && e.line in AddAll(EMPTY, es).edges[e.id].lines
  {
    OnOwnEdge(es, e);
    EdgeContents(es, e.id);
    var i :| 0 <= i < |OnEdge(es, {e.id})| && OnEdge(es, {e.id})[i] == e;
    assert LinesOf(OnEdge(es, {e.id}))[i] == e.line;
  }

  /** Every connection that is reported has its line on its edge. */
  lemma ConnectionShown(tb: Table, tr: seq<Tree>, query: Pid, order: seq<Pid>, pt: set<Pid>, itr: seq<Tree>, p: Pid, c: Connection)
    requires ValidTable(tb) && query >= 0 && Enumerates(order, pt)
    requires p in pt && p in tb && c in tb[p].connections
    requires if c.peer.pid < 0 then Asked(query, p)
             else if c.peer.pid >= MAX_INT32 then query > 0 && p == query
             else p != 0 && c.peer.pid != 0 && p != c.peer.pid
    ensures var g := AddAll(EMPTY, AllEvents(tb, tr, query, order, itr));
            EdgeOf(tr, p, c.peer.pid) in g.edges && LineOf(tr, p, c) in g.edges[EdgeOf(tr, p, c.peer.pid)].lines
  {
    var e := ConnEvent(tr, c);
    ReportedPeer(query, p, c);
    assert Reports(tb, query, pt, p, c);
    EventFrom(tb, tr, query, order, pt, e);
    assert e.id == EdgeOf(tr, p, c.peer.pid) && e.line == LineOf(tr, p, c);
    EventLine(AllEvents(tb, tr, query, order, itr), e);
  }

  // ---------------------------------------------------------------- how many lines

  function Hosts(cs: seq<Connection>): nat {
    if cs == [] then 0 else Hosts(cs[..|cs|-1]) + if cs[|cs|-1].peer.pid < 0 then 1 else 0
  }

  function Datas(cs: seq<Connection>): nat {
    if cs == [] then 0 else Datas(cs[..|cs|-1]) + if cs[|cs|-1].peer.pid >= MAX_INT32 then 1 else 0
  }

  /** Connections to other processes than `p` and process 0. */
  function Others(cs: seq<Connection>, p: Pid): nat {
    if cs == [] then 0
    else Others(cs[..|cs|-1], p) + if 0 < cs[|cs|-1].peer.pid < MAX_INT32 && cs[|cs|-1].peer.pid != p then 1 else 0
  }

  /** The lines of one process: none for process 0; of the others all to processes, those to hosts if asked for, and those
      to data nodes in a query for the process. */
  function LinesOfProcess(query: Pid, p: Pid, cs: seq<Connection>): nat {
    (if p == 0 then 0 else Others(cs, p))
    + (if Asked(query, p) then Hosts(cs) else 0)
    + (if query > 0 && p == query then Datas(cs) else 0)
  }

  function TotalLines(tb: Table, query: Pid, order: seq<Pid>): nat {
    if order == [] then 0
    else
      var p := order[|order|-1];
      TotalLines(tb, query, order[..|order|-1]) + if p in tb then LinesOfProcess(query, p, tb[p].connections) else 0
  }

  lemma {:induction false} UnskippedLines(query: Pid, p: Pid, cs: seq<Connection>)
    requires query >= 0 && IsProcess(p) && forall i :: 0 <= i < |cs| ==> cs[i].self.pid == p
    ensures Unskipped(query, cs) == LinesOfProcess(query, p, cs)
  {
    if cs != [] {
      UnskippedLines(query, p, cs[..|cs|-1]);
      ReportedPeer(query, p, cs[|cs|-1]);
    }
  }

  lemma {:induction false} UnskippedTotal(tb: Table, query: Pid, order: seq<Pid>)
    requires ValidTable(tb) && query >= 0
    ensures TotalUnskipped(tb, query, order) == TotalLines(tb, query, order)
  {
    if order != [] {
      var p := order[|order|-1];
      UnskippedTotal(tb, query, order[..|order|-1]);
      if p in tb {
        assert forall i :: 0 <= i < |tb[p].connections| ==> tb[p].connections[i] in tb[p].connections;
        UnskippedLines(query, p, tb[p].connections);
      }
    }
  }

  /** Over all edges, the tooltip lines number the connections that the table calls for, by kind of peer, and the nodes of
      the report's tree that are not roots. */
  lemma LinesShown(tb: Table, tr: seq<Tree>, query: Pid, order: seq<Pid>, itr: seq<Tree>, ids: seq<EdgeId>)
    requires ValidTable(tb) && query >= 0
    requires Enumerates(ids, AddAll(EMPTY, AllEvents(tb, tr, query, order, itr)).edges.Keys)
    ensures forall id :: id in ids ==> id in AddAll(EMPTY, AllEvents(tb, tr, query, order, itr)).edges
    ensures |Tooltips(AddAll(EMPTY, AllEvents(tb, tr, query, order, itr)).edges, ids)|
            == TotalLines(tb, query, order) + (|Pids(itr)| - |Roots(itr)|)
  {
    ConnectionConservation(tb, tr, query, order, itr, ids);
    UnskippedTotal(tb, query, order);
  }
}
