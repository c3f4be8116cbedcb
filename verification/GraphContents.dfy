/** What the node graph of process connections contains, as a fold over the lines that process/nodegraph.go adds. */
module GraphContents {
  import opened Collections
  import opened ProcessTypes
  import opened Forest

  datatype Process = Process(ppid: Pid, connections: seq<Connection>)

  type Table = map<Pid, Process>

  /** The parents of the processes that have one (HasParent and Parent in process/measure.go). */
  function ParentsOf(tb: Table): map<Pid, Pid> {
    map p | p in tb && tb[p].ppid > 0 :: tb[p].ppid
  }

  predicate IsHost(pid: Pid) { pid < 0 }

  predicate IsData(pid: Pid) { pid >= MAX_INT32 }

  predicate IsProcess(pid: Pid) { 0 <= pid < MAX_INT32 }

  /** What the table's producers guarantee: connections are listed under their own pid. Their peers come from an
      earlier cycle of lsof, and may have exited since. */
  ghost predicate ValidTable(tb: Table) {
    && (forall p :: p in tb ==> IsProcess(p))
    && (forall p, c :: p in tb && c in tb[p].connections ==> c.self.pid == p)
  }

  // ---------------------------------------------------------------- edges

  /** The first element of an edge's list, made by the query. */
  datatype Seed = HostSeed(conn: Connection) | DataSeed(conn: Connection) | ProcSeed(source: Pid, target: Pid)

  /** A line of an edge's tooltip. */
  datatype Line =
    | HostLine(typ: string, peer: string, self: string, pid: Pid)
    | DataLine(pid: Pid, typ: string, peer: string)
    | ProcLine(typ: string, self: string, selfPid: Pid, peer: string, peerPid: Pid)
    | ParentLine(parent: Pid, child: Pid)

  datatype Edge = Edge(seed: Seed, lines: seq<Line>)

  type EdgeId = (Pid, Pid)

  /** One line, the edge it goes to, and the processes it brings into the report. */
  datatype Event = Event(id: EdgeId, seed: Seed, line: Line, adds: set<Pid>)

  datatype Contents = Drawn(hosts: map<Pid, Connection>, datas: map<Pid, Connection>, included: set<Pid>, edges: map<EdgeId, Edge>)

  const EMPTY := Drawn(map[], map[], {}, map[])

  /** Connections that the query leaves out. */
  predicate Skips(query: Pid, c: Connection) {
    || c.self.pid == 0 || c.peer.pid == 0
    || c.self.pid == c.peer.pid
    || (query == 0 && IsData(c.peer.pid))
    || (query > 0 && query != c.self.pid && (IsHost(c.peer.pid) || IsData(c.peer.pid)))
  }

  /** An inter-process edge is drawn once: from the end with fewer ancestors, then the lower pid. */
  predicate Swaps(tr: seq<Tree>, c: Connection) {
    || Depth(tr, c.self.pid) > Depth(tr, c.peer.pid)
    || (Depth(tr, c.self.pid) == Depth(tr, c.peer.pid) && c.self.pid > c.peer.pid)
  }

  function ConnEvent(tr: seq<Tree>, c: Connection): Event {
    if IsHost(c.peer.pid) then
      Event((c.peer.pid, c.self.pid), HostSeed(c), HostLine(c.typ, c.peer.name, c.self.name, c.self.pid), {})
    else if IsData(c.peer.pid) then
      Event((c.self.pid, c.peer.pid), DataSeed(c), DataLine(c.self.pid, c.typ, c.peer.name), {})
    else
      var (a, b) := if Swaps(tr, c) then (c.peer, c.self) else (c.self, c.peer);
      Event((a.pid, b.pid), ProcSeed(a.pid, b.pid), ProcLine(c.typ, a.name, a.pid, b.name, b.pid),
            {c.peer.pid} + set p | p in Ancestors(tr, c.peer.pid))
  }

  function ParentEvent(link: (Pid, Pid)): Event {
    Event(link, ProcSeed(link.0, link.1), ParentLine(link.0, link.1), {})
  }

  function ConnEvents(tr: seq<Tree>, query: Pid, cs: seq<Connection>): seq<Event> {
    if cs == [] then []
    else
      var front := ConnEvents(tr, query, cs[..|cs|-1]);
      if Skips(query, cs[|cs|-1]) then front else front + [ConnEvent(tr, cs[|cs|-1])]
  }

  /** The connection events of the processes in the order of the range over the selected processes. */
  function TableEvents(tb: Table, tr: seq<Tree>, query: Pid, order: seq<Pid>): seq<Event> {
    if order == [] then []
    else
      var front, p := order[..|order|-1], order[|order|-1];
      TableEvents(tb, tr, query, front) + (if p in tb then ConnEvents(tr, query, tb[p].connections) else [])
  }

  function ParentEvents(links: seq<(Pid, Pid)>): (r: seq<Event>)
    ensures |r| == |links|
  {
    seq(|links|, i requires 0 <= i < |links| => ParentEvent(links[i]))
  }

  function AddEvent(g: Contents, e: Event): Contents {
    Drawn(
      if e.seed.HostSeed? && e.id.0 !in g.hosts then g.hosts[e.id.0 := e.seed.conn] else g.hosts,
      if e.seed.DataSeed? && e.id.1 !in g.datas then g.datas[e.id.1 := e.seed.conn] else g.datas,
      g.included + e.adds,
      g.edges[e.id := if e.id in g.edges then Edge(g.edges[e.id].seed, g.edges[e.id].lines + [e.line]) else Edge(e.seed, [e.line])])
  }

  function AddAll(g: Contents, es: seq<Event>): Contents {
    if es == [] then g else AddEvent(AddAll(g, es[..|es|-1]), es[|es|-1])
  }

  function Include(g: Contents, pids: set<Pid>): Contents {
    g.(included := g.included + pids)
  }

  lemma {:induction false} AddAllConcat(g: Contents, a: seq<Event>, b: seq<Event>)
    ensures AddAll(g, a + b) == AddAll(AddAll(g, a), b)
  {
    if b == [] {
      assert a + b == a;
    } else {
      assert (a + b)[..|a + b|-1] == a + b[..|b|-1];
      AddAllConcat(g, a, b[..|b|-1]);
    }
  }

  lemma ParentEventsConcat(g: Contents, a: seq<(Pid, Pid)>, b: seq<(Pid, Pid)>)
    ensures AddAll(g, ParentEvents(a + b)) == AddAll(AddAll(g, ParentEvents(a)), ParentEvents(b))
  {
    assert ParentEvents(a + b) == ParentEvents(a) + ParentEvents(b);
    AddAllConcat(g, ParentEvents(a), ParentEvents(b));
  }

  lemma {:induction false} IncludeCommutes(g: Contents, pids: set<Pid>, es: seq<Event>)
    ensures AddAll(Include(g, pids), es) == Include(AddAll(g, es), pids)
  {
    if es != [] {
      IncludeCommutes(g, pids, es[..|es|-1]);
      var h := AddAll(g, es[..|es|-1]);
      assert h.included + pids + es[|es|-1].adds == h.included + es[|es|-1].adds + pids;
    } else {
      assert AddAll(g, es) == g;
    }
  }

  // ---------------------------------------------------------------- contents of an edge

  function OnEdge(es: seq<Event>, ids: set<EdgeId>): seq<Event> {
    if es == [] then []
    else
      var front := OnEdge(es[..|es|-1], ids);
      if es[|es|-1].id in ids then front + [es[|es|-1]] else front
  }

  function LinesOf(es: seq<Event>): (r: seq<Line>)
    ensures |r| == |es|
  {
    seq(|es|, i requires 0 <= i < |es| => es[i].line)
  }

  /** An edge exists for exactly the ids that got a line; it holds their lines in order after the seed of the first. */
  lemma {:induction false} EdgeContents(es: seq<Event>, id: EdgeId)
    ensures id in AddAll(EMPTY, es).edges <==> OnEdge(es, {id}) != []
    ensures OnEdge(es, {id}) != [] ==>
              AddAll(EMPTY, es).edges[id] == Edge(OnEdge(es, {id})[0].seed, LinesOf(OnEdge(es, {id})))
  {
    if es != [] {
      EdgeContents(es[..|es|-1], id);
      var front, last := OnEdge(es[..|es|-1], {id}), es[|es|-1];
      if last.id == id {
        assert LinesOf(front + [last]) == LinesOf(front) + [last.line];
      }
    }
  }

  lemma {:induction false} OnAllEdges(es: seq<Event>, ids: set<EdgeId>)
    requires forall e :: e in es ==> e.id in ids
    ensures OnEdge(es, ids) == es
  {
    if es != [] {
      assert es == es[..|es|-1] + [es[|es|-1]];
      OnAllEdges(es[..|es|-1], ids);
    }
  }

  lemma {:induction false} OnMoreEdges(es: seq<Event>, ids: set<EdgeId>, id: EdgeId)
    requires id !in ids
    ensures multiset(LinesOf(OnEdge(es, ids + {id}))) == multiset(LinesOf(OnEdge(es, ids))) + multiset(LinesOf(OnEdge(es, {id})))
  {
    if es != [] {
      OnMoreEdges(es[..|es|-1], ids, id);
      var last := es[|es|-1];
      forall s: set<EdgeId>
        ensures LinesOf(OnEdge(es, s)) ==
                if last.id in s then LinesOf(OnEdge(es[..|es|-1], s)) + [last.line] else LinesOf(OnEdge(es[..|es|-1], s))
      {
      }
    }
  }

  /** All tooltip lines of the edges listed in `ids`. */
  function Tooltips(edges: map<EdgeId, Edge>, ids: seq<EdgeId>): multiset<Line>
    requires forall id :: id in ids ==> id in edges
  {
    if ids == [] then multiset{}
    else
      assert ids == ids[..|ids|-1] + [ids[|ids|-1]];
      Tooltips(edges, ids[..|ids|-1]) + multiset(edges[ids[|ids|-1]].lines)
  }

  lemma {:induction false} TooltipsOf(es: seq<Event>, ids: seq<EdgeId>)
    requires Distinct(ids) && forall id :: id in ids ==> id in AddAll(EMPTY, es).edges
    ensures Tooltips(AddAll(EMPTY, es).edges, ids) == multiset(LinesOf(OnEdge(es, SetOf(ids))))
  {
    if ids == [] {
      OnNoEdge(es);
      assert SetOf(ids) == {};
    } else {
      var front, last := ids[..|ids|-1], ids[|ids|-1];
      assert ids == front + [last];
      DistinctParts(front, [last]);
      TooltipsOf(es, front);
      assert SetOf(ids) == SetOf(front) + {last};
      OnMoreEdges(es, SetOf(front), last);
      EdgeContents(es, last);
    }
  }

  lemma {:induction false} OnNoEdge(es: seq<Event>)
    ensures OnEdge(es, {}) == []
  {
    if es != [] {
      OnNoEdge(es[..|es|-1]);
    }
  }

  lemma {:induction false} EdgeIds(g: Contents, es: seq<Event>, id: EdgeId)
    ensures id in AddAll(g, es).edges <==> id in g.edges || exists e :: e in es && e.id == id
  {
    if es != [] {
      assert es == es[..|es|-1] + [es[|es|-1]];
      EdgeIds(g, es[..|es|-1], id);
    }
  }

  /** No line is lost, added or duplicated: over all edges, the tooltips are exactly the events' lines. */
  lemma TooltipConservation(es: seq<Event>, ids: seq<EdgeId>)
    requires Enumerates(ids, AddAll(EMPTY, es).edges.Keys)
    ensures forall id :: id in ids ==> id in AddAll(EMPTY, es).edges
    ensures Tooltips(AddAll(EMPTY, es).edges, ids) == multiset(LinesOf(es))
    ensures |Tooltips(AddAll(EMPTY, es).edges, ids)| == |es|
  {
    assert forall id :: id in ids ==> id in SetOf(ids);
    TooltipsOf(es, ids);
    forall e | e in es ensures e.id in SetOf(ids) {
      EdgeIds(EMPTY, es, e.id);
    }
    OnAllEdges(es, SetOf(ids));
  }

  // ---------------------------------------------------------------- what the whole graph consists of

  function AllEvents(tb: Table, tr: seq<Tree>, query: Pid, order: seq<Pid>, itr: seq<Tree>): seq<Event> {
    TableEvents(tb, tr, query, order) + ParentEvents(Links(itr))
  }

  function Unskipped(query: Pid, cs: seq<Connection>): nat {
    if cs == [] then 0 else Unskipped(query, cs[..|cs|-1]) + (if Skips(query, cs[|cs|-1]) then 0 else 1)
  }

  /** The number of connections of the given processes that the query does not leave out. */
  function TotalUnskipped(tb: Table, query: Pid, order: seq<Pid>): nat {
    if order == [] then 0
    else
      var p := order[|order|-1];
      TotalUnskipped(tb, query, order[..|order|-1]) + (if p in tb then Unskipped(query, tb[p].connections) else 0)
  }

  lemma {:induction false} ConnEventsCount(tr: seq<Tree>, query: Pid, cs: seq<Connection>)
    ensures |ConnEvents(tr, query, cs)| == Unskipped(query, cs)
  {
    if cs != [] {
      ConnEventsCount(tr, query, cs[..|cs|-1]);
    }
  }

  lemma {:induction false} TableEventsCount(tb: Table, tr: seq<Tree>, query: Pid, order: seq<Pid>)
    ensures |TableEvents(tb, tr, query, order)| == TotalUnskipped(tb, query, order)
  {
    if order != [] {
      TableEventsCount(tb, tr, query, order[..|order|-1]);
      if order[|order|-1] in tb {
        ConnEventsCount(tr, query, tb[order[|order|-1]].connections);
      }
    }
  }

  /** Tooltip lines number exactly the reported connections plus the nodes of the report's tree that are not roots. */
  lemma ConnectionConservation(tb: Table, tr: seq<Tree>, query: Pid, order: seq<Pid>, itr: seq<Tree>, ids: seq<EdgeId>)
    requires Enumerates(ids, AddAll(EMPTY, AllEvents(tb, tr, query, order, itr)).edges.Keys)
    ensures forall id :: id in ids ==> id in AddAll(EMPTY, AllEvents(tb, tr, query, order, itr)).edges
    ensures |Tooltips(AddAll(EMPTY, AllEvents(tb, tr, query, order, itr)).edges, ids)|
            == TotalUnskipped(tb, query, order) + (|Pids(itr)| - |Roots(itr)|)
  {
    TooltipConservation(AllEvents(tb, tr, query, order, itr), ids);
    TableEventsCount(tb, tr, query, order);
    LinksPartition(itr);
    assert |multiset(Children(Links(itr)))| == |Links(itr)|;
    assert |multiset(Pids(itr))| == |Pids(itr)| && |multiset(Roots(itr))| == |Roots(itr)|;
  }

  // ---------------------------------------------------------------- acyclicity

  /** The rank that every edge increases: hosts, then processes by (ancestors, pid), then data. */
  predicate Below(tr: seq<Tree>, a: Pid, b: Pid) {
    || (IsHost(a) && !IsHost(b))
    || (!IsData(a) && IsData(b))
    || (IsProcess(a) && IsProcess(b)
        && (Depth(tr, a) < Depth(tr, b) || (Depth(tr, a) == Depth(tr, b) && a < b)))
  }

  predicate EdgeAt(ids: set<EdgeId>, path: seq<Pid>, i: nat) {
    i + 1 < |path| && (path[i], path[i+1]) in ids
  }

  ghost predicate IsPath(ids: set<EdgeId>, path: seq<Pid>) {
    forall i: nat :: i + 1 < |path| ==> EdgeAt(ids, path, i)
  }

  ghost predicate Acyclic(ids: set<EdgeId>) {
    forall path :: |path| >= 2 && IsPath(ids, path) ==> path[0] != path[|path|-1]
  }

  lemma {:induction false} PathClimbs(tr: seq<Tree>, ids: set<EdgeId>, path: seq<Pid>)
    requires forall id :: id in ids ==> Below(tr, id.0, id.1)
    requires |path| >= 2 && IsPath(ids, path)
    ensures Below(tr, path[0], path[|path|-1])
  {
    var last := |path| - 1;
    assert EdgeAt(ids, path, last - 1);
    if |path| > 2 {
      var front := path[..last];
      forall i: nat | i + 1 < |front| ensures EdgeAt(ids, front, i) {
        assert EdgeAt(ids, path, i);
      }
      PathClimbs(tr, ids, front);
    }
  }

  lemma ClimbingIsAcyclic(tr: seq<Tree>, ids: set<EdgeId>)
    requires forall id :: id in ids ==> Below(tr, id.0, id.1)
    ensures Acyclic(ids)
  {
    forall path | |path| >= 2 && IsPath(ids, path) ensures path[0] != path[|path|-1] {
      PathClimbs(tr, ids, path);
    }
  }

  /** An acyclic edge map never joins the same two nodes in both directions. */
  lemma NoAntiparallel(ids: set<EdgeId>, a: Pid, b: Pid)
    requires Acyclic(ids) && (a, b) in ids
    ensures (b, a) !in ids
  {
    var path := [a, b, a];
    assert path[0] == path[|path|-1];
    assert !IsPath(ids, path);
    var i: nat :| i + 1 < |path| && !EdgeAt(ids, path, i);
    assert i == 1;
  }

  /** What every connection's event keeps. */
  ghost predicate Proper(tr: seq<Tree>, pt: set<Pid>, e: Event) {
    && Below(tr, e.id.0, e.id.1)
    && match e.seed
       case HostSeed(_) => e.id.1 in pt
       case DataSeed(_) => e.id.0 in pt
       case ProcSeed(_, _) => e.id.0 in pt + e.adds && e.id.1 in pt + e.adds
  }

  /** A process peer of a reported connection is in the table: a missing one becomes a nil process of the report. */
  predicate PeerKnown(tb: Table, query: Pid, c: Connection) {
    !Skips(query, c) && IsProcess(c.peer.pid) ==> c.peer.pid in tb
  }

  ghost predicate PeersKnown(tb: Table, query: Pid, pt: set<Pid>) {
    forall p, c :: p in pt && p in tb && c in tb[p].connections ==> PeerKnown(tb, query, c)
  }

  lemma ConnEventProper(tb: Table, tr: seq<Tree>, query: Pid, p: Pid, c: Connection)
    requires ValidTable(tb) && IsForest(tr, tb.Keys, ParentsOf(tb))
    requires p in tb && c in tb[p].connections && !Skips(query, c)
    ensures Proper(tr, {p}, ConnEvent(tr, c))
    ensures ConnEvent(tr, c).adds <= tb.Keys <==> PeerKnown(tb, query, c)
  {
    if IsProcess(c.peer.pid) {
      assert c.peer.pid in ConnEvent(tr, c).adds;
      forall a | a in Ancestors(tr, c.peer.pid) ensures a in tb {
        assert a in SetOf(Pids(tr));
      }
    }
  }

  ghost predicate AllProper(tr: seq<Tree>, pt: set<Pid>, es: seq<Event>) {
    forall e :: e in es ==> Proper(tr, pt, e)
  }

  ghost predicate AddsWithin(es: seq<Event>, keys: set<Pid>) {
    forall e :: e in es ==> e.adds <= keys
  }

  lemma {:induction false} ConnEventsProper(tb: Table, tr: seq<Tree>, query: Pid, p: Pid, cs: seq<Connection>)
    requires ValidTable(tb) && IsForest(tr, tb.Keys, ParentsOf(tb))
    requires p in tb && forall c :: c in cs ==> c in tb[p].connections
    ensures AllProper(tr, {p}, ConnEvents(tr, query, cs))
    ensures AddsWithin(ConnEvents(tr, query, cs), tb.Keys) <==> forall c :: c in cs ==> PeerKnown(tb, query, c)
  {
    if cs != [] {
      var front, last := cs[..|cs|-1], cs[|cs|-1];
      assert cs == front + [last];
      ConnEventsProper(tb, tr, query, p, front);
      if !Skips(query, last) {
        ConnEventProper(tb, tr, query, p, last);
      }
    }
  }

  lemma AllProperMore(tr: seq<Tree>, pt: set<Pid>, more: set<Pid>, es: seq<Event>)
    requires AllProper(tr, pt, es) && pt <= more
    ensures AllProper(tr, more, es)
  {
    forall e | e in es ensures Proper(tr, more, e) {
      assert Proper(tr, pt, e);
    }
  }

  lemma AddsWithinConcat(a: seq<Event>, b: seq<Event>, keys: set<Pid>)
    ensures AddsWithin(a + b, keys) <==> AddsWithin(a, keys) && AddsWithin(b, keys)
  {
    if AddsWithin(a + b, keys) {
      forall e | e in a ensures e.adds <= keys {
        assert e in a + b;
      }
      forall e | e in b ensures e.adds <= keys {
        assert e in a + b;
      }
    }
  }

  lemma {:induction false} TableEventsProper(tb: Table, tr: seq<Tree>, query: Pid, order: seq<Pid>)
    requires ValidTable(tb) && IsForest(tr, tb.Keys, ParentsOf(tb))
    ensures AllProper(tr, SetOf(order), TableEvents(tb, tr, query, order))
    ensures AddsWithin(TableEvents(tb, tr, query, order), tb.Keys) <==> PeersKnown(tb, query, SetOf(order))
  {
    if order != [] {
      var front, p := order[..|order|-1], order[|order|-1];
      assert SetOf(order) == SetOf(front) + {p} by {
        assert order == front + [p];
      }
      TableEventsProper(tb, tr, query, front);
      var es, more := TableEvents(tb, tr, query, front), if p in tb then ConnEvents(tr, query, tb[p].connections) else [];
      AddsWithinConcat(es, more, tb.Keys);
      AllProperMore(tr, SetOf(front), SetOf(order), es);
      if p in tb {
        ConnEventsProper(tb, tr, query, p, tb[p].connections);
        AllProperMore(tr, {p}, SetOf(order), more);
      }
      KnownMore(tb, query, SetOf(front), p);
    }
  }

  lemma KnownMore(tb: Table, query: Pid, pt: set<Pid>, p: Pid)
    ensures PeersKnown(tb, query, pt + {p}) <==>
            PeersKnown(tb, query, pt) && (p in tb ==> forall c :: c in tb[p].connections ==> PeerKnown(tb, query, c))
  {
    if PeersKnown(tb, query, pt + {p}) {
      assert forall q :: q in pt ==> q in pt + {p};
      assert p in pt + {p};
    }
  }

  lemma {:induction false} IncludeWithin(g: Contents, es: seq<Event>, keys: set<Pid>)
    ensures AddAll(g, es).included <= keys <==> g.included <= keys && AddsWithin(es, keys)
  {
    if es != [] {
      var front, last := es[..|es|-1], es[|es|-1];
      assert es == front + [last];
      IncludeWithin(g, front, keys);
      AddsWithinConcat(front, [last], keys);
      assert last in [last];
    }
  }

  /** Once added, an event's nodes stay. */
  lemma {:induction false} NodesAdded(g: Contents, es: seq<Event>, e: Event)
    requires e in es
    ensures e.adds <= AddAll(g, es).included
    ensures e.seed.HostSeed? ==> e.id.0 in AddAll(g, es).hosts
    ensures e.seed.DataSeed? ==> e.id.1 in AddAll(g, es).datas
  {
    assert es == es[..|es|-1] + [es[|es|-1]];
    if e in es[..|es|-1] {
      NodesAdded(g, es[..|es|-1], e);
    }
  }

  /** Every included process is in the table exactly when each process peer of a reported connection is. */
  lemma IncludedIffKnown(tb: Table, tr: seq<Tree>, query: Pid, order: seq<Pid>, pt: set<Pid>)
    requires ValidTable(tb) && IsForest(tr, tb.Keys, ParentsOf(tb)) && pt <= tb.Keys && Enumerates(order, pt)
    ensures Include(AddAll(EMPTY, TableEvents(tb, tr, query, order)), pt).included <= tb.Keys <==> PeersKnown(tb, query, pt)
  {
    TableEventsProper(tb, tr, query, order);
    IncludeWithin(EMPTY, TableEvents(tb, tr, query, order), tb.Keys);
  }

  /** Drawing the parents after the connections draws all events. */
  lemma Assemble(tb: Table, tr: seq<Tree>, query: Pid, order: seq<Pid>, pt: set<Pid>, itr: seq<Tree>)
    ensures AddAll(Include(AddAll(EMPTY, TableEvents(tb, tr, query, order)), pt), ParentEvents(Links(itr)))
            == Include(AddAll(EMPTY, AllEvents(tb, tr, query, order, itr)), pt)
    ensures Include(AddAll(EMPTY, AllEvents(tb, tr, query, order, itr)), pt).included
            == Include(AddAll(EMPTY, TableEvents(tb, tr, query, order)), pt).included
  {
    var conns, parents := TableEvents(tb, tr, query, order), ParentEvents(Links(itr));
    AddAllConcat(EMPTY, conns, parents);
    IncludeCommutes(AddAll(EMPTY, conns), pt, parents);
    ParentsIncludeNothing(AddAll(EMPTY, conns), Links(itr));
  }

  lemma {:induction false} ParentsIncludeNothing(g: Contents, links: seq<(Pid, Pid)>)
    ensures AddAll(g, ParentEvents(links)).included == g.included
  {
    if links != [] {
      assert ParentEvents(links)[..|links|-1] == ParentEvents(links[..|links|-1]);
      ParentsIncludeNothing(g, links[..|links|-1]);
    }
  }

  /** The finished graph has no cycle, and every endpoint of an edge is a node of the report. */
  lemma GraphIsSound(tb: Table, tr: seq<Tree>, query: Pid, order: seq<Pid>, pt: set<Pid>, itr: seq<Tree>)
    requires ValidTable(tb) && IsForest(tr, tb.Keys, ParentsOf(tb))
    requires Enumerates(order, pt) && pt <= tb.Keys && PeersKnown(tb, query, pt)
    requires IsForest(itr, Include(AddAll(EMPTY, TableEvents(tb, tr, query, order)), pt).included, ParentsOf(tb))
    ensures var g := Include(AddAll(EMPTY, AllEvents(tb, tr, query, order, itr)), pt);
            && Acyclic(g.edges.Keys)
            && forall id :: id in g.edges ==> id.0 in g.hosts.Keys + g.included && id.1 in g.datas.Keys + g.included
  {
    var conns, parents := TableEvents(tb, tr, query, order), ParentEvents(Links(itr));
    var es := conns + parents;
    var before := Include(AddAll(EMPTY, conns), pt);
    var g := Include(AddAll(EMPTY, es), pt);
    TableEventsProper(tb, tr, query, order);
    IncludedIffKnown(tb, tr, query, order, pt);
    Assemble(tb, tr, query, order, pt, itr);
    forall id | id in g.edges
      ensures Below(tr, id.0, id.1)
      ensures id.0 in g.hosts.Keys + g.included && id.1 in g.datas.Keys + g.included
    {
      EdgeIds(EMPTY, es, id);
      var e :| e in es && e.id == id;
      if e in conns {
        NodesAdded(EMPTY, es, e);
      } else {
        assert e in parents;
        assert id in Links(itr);
        SubforestDepth(tr, tb.Keys, itr, before.included, ParentsOf(tb), id.0, id.1);
      }
    }
    ClimbingIsAcyclic(tr, g.edges.Keys);
  }

  // ---------------------------------------------------------------- single edges

  /** Parent lines for the same child. */
  function ParentLines(es: seq<Event>, child: Pid): nat {
    if es == [] then 0
    else ParentLines(es[..|es|-1], child) + if es[|es|-1].line.ParentLine? && es[|es|-1].line.child == child then 1 else 0
  }

  lemma {:induction false} NoParentLines(tr: seq<Tree>, query: Pid, cs: seq<Connection>, child: Pid)
    ensures ParentLines(ConnEvents(tr, query, cs), child) == 0
  {
    if cs != [] {
      NoParentLines(tr, query, cs[..|cs|-1], child);
    }
  }

  lemma {:induction false} ParentLinesConcat(a: seq<Event>, b: seq<Event>, child: Pid)
    ensures ParentLines(a + b, child) == ParentLines(a, child) + ParentLines(b, child)
  {
    if b == [] {
      assert a + b == a;
    } else {
      assert (a + b)[..|a + b|-1] == a + b[..|b|-1];
      ParentLinesConcat(a, b[..|b|-1], child);
    }
  }

  lemma {:induction false} NoParentLinesInTable(tb: Table, tr: seq<Tree>, query: Pid, order: seq<Pid>, child: Pid)
    ensures ParentLines(TableEvents(tb, tr, query, order), child) == 0
  {
    if order != [] {
      var front, p := order[..|order|-1], order[|order|-1];
      NoParentLinesInTable(tb, tr, query, front, child);
      if p in tb {
        NoParentLines(tr, query, tb[p].connections, child);
        ParentLinesConcat(TableEvents(tb, tr, query, front), ConnEvents(tr, query, tb[p].connections), child);
      } else {
        ParentLinesConcat(TableEvents(tb, tr, query, front), [], child);
      }
    }
  }

  lemma {:induction false} LinksAreParentLines(links: seq<(Pid, Pid)>, child: Pid)
    ensures ParentLines(ParentEvents(links), child) == multiset(Children(links))[child]
  {
    if links != [] {
      var front, last := links[..|links|-1], links[|links|-1];
      LinksAreParentLines(front, child);
      assert ParentEvents(links)[..|links|-1] == ParentEvents(front);
      assert links == front + [last];
      ChildrenConcat(front, [last]);
      assert Children([last]) == [last.1];
    }
  }

  lemma {:induction false} Absent(s: seq<Pid>, p: Pid)
    requires forall i :: 0 <= i < |s| ==> s[i] != p
    ensures multiset(s)[p] == 0
  {
    if s != [] {
      Absent(s[1..], p);
      assert s == [s[0]] + s[1..];
    }
  }

  lemma {:induction false} DistinctOnce(s: seq<Pid>, p: Pid)
    requires Distinct(s) && p in s
    ensures multiset(s)[p] == 1
  {
    var rest := s[1..];
    assert s == [s[0]] + rest;
    if s[0] == p {
      Absent(rest, p);
    } else {
      assert p in rest;
      DistinctOnce(rest, p);
    }
  }

  /** Of a report's processes, each root gets no parent line and every other exactly one, on the edge from its parent. */
  lemma OneParentLine(tb: Table, tr: seq<Tree>, query: Pid, order: seq<Pid>, itr: seq<Tree>, keys: set<Pid>, p: Pid)
    requires IsForest(itr, keys, ParentsOf(tb)) && p in keys
    ensures ParentLines(AllEvents(tb, tr, query, order, itr), p) == if p in Roots(itr) then 0 else 1
    ensures p !in Roots(itr) ==> p in tb && ParentEvent((tb[p].ppid, p)) in AllEvents(tb, tr, query, order, itr)
  {
    NoParentLinesInTable(tb, tr, query, order, p);
    ParentLinesConcat(TableEvents(tb, tr, query, order), ParentEvents(Links(itr)), p);
    LinksAreParentLines(Links(itr), p);
    LinksPartition(itr);
    assert p in SetOf(Pids(itr));
    DistinctOnce(Pids(itr), p);
    assert p in Roots(itr) <==> multiset(Roots(itr))[p] > 0;
    if p !in Roots(itr) {
      assert p in Children(Links(itr));
      LinkTo(Links(itr), p);
    }
  }

  lemma LinkTo(links: seq<(Pid, Pid)>, child: Pid)
    requires child in Children(links)
    ensures exists a :: (a, child) in links && ParentEvent((a, child)) in ParentEvents(links)
  {
    var i :| 0 <= i < |Children(links)| && Children(links)[i] == child;
    assert links[i] == (links[i].0, child);
    assert ParentEvents(links)[i] == ParentEvent(links[i]);
  }

  /** The same connection as its peer lists it. */
  function Mirror(c: Connection): Connection {
    c.(self := c.peer, peer := c.self)
  }

  /** Two processes' two views of one connection land on one edge, with the same line. */
  lemma OneEdgeForBothEnds(tr: seq<Tree>, c: Connection)
    requires IsProcess(c.self.pid) && IsProcess(c.peer.pid) && c.self.pid != c.peer.pid
    ensures ConnEvent(tr, c).id == ConnEvent(tr, Mirror(c)).id && ConnEvent(tr, c).line == ConnEvent(tr, Mirror(c)).line
    ensures ConnEvent(tr, c).id == (c.self.pid, c.peer.pid) || ConnEvent(tr, c).id == (c.peer.pid, c.self.pid)
  {
  }

  // ---------------------------------------------------------------- a peer that has exited

  const STALE: Connection := Connection("unix", Endpoint("a", 5), Endpoint("b", 9))

  const LEAF: seq<Tree> := [Node(5, [])]

  /** Process 5, a child of process 1, still lists a connection to process 9, which has exited. */
  const STALE_TABLE: Table := map[1 := Process(0, []), 5 := Process(1, [STALE])]

  const STALE_TREE: seq<Tree> := [Node(1, LEAF)]

  lemma StaleTree()
    ensures IsForest(STALE_TREE, STALE_TABLE.Keys, ParentsOf(STALE_TABLE))
  {
    var leaf, tr := LEAF, STALE_TREE;
    assert leaf[0].children == [] && leaf[1..] == [] && tr[0].children == leaf && tr[1..] == [];
    assert Pids(leaf) == [5] && Pids(tr) == [1, 5];
    assert [] + [1] == [1];
    assert LinksBelow([1], leaf) == [(1, 5)] && Links(leaf) == [] && Links(tr) == [(1, 5)];
    assert SetOf([1, 5]) == {1, 5};
  }

  /** Process 5 lists one to its own parent, before the host has given it another. */
  const LEFT_TABLE: Table := map[5 := Process(9, [STALE])]

  /** The tree with a nil process 9 in it. */
  const LEFT_REPORT: seq<Tree> := [Node(9, LEAF)]

  lemma LeftTrees()
    ensures IsForest(LEAF, LEFT_TABLE.Keys, ParentsOf(LEFT_TABLE))
    ensures IsForest(LEFT_REPORT, {5, 9}, ParentsOf(LEFT_TABLE))
    ensures Links(LEFT_REPORT) == [(9, 5)]
  {
    var leaf, report := LEAF, LEFT_REPORT;
    assert leaf[0].children == [] && leaf[1..] == [] && report[0].children == leaf && report[1..] == [];
    assert Pids(leaf) == [5] && Pids(report) == [9, 5];
    assert [] + [9] == [9];
    assert LinksBelow([9], leaf) == [(9, 5)] && Links(leaf) == [] && Links(report) == [(9, 5)];
    assert SetOf([5]) == {5} && SetOf([9, 5]) == {5, 9};
  }

  lemma OneConnection(tr: seq<Tree>, query: Pid, c: Connection)
    requires !Skips(query, c)
    ensures ConnEvents(tr, query, [c]) == [ConnEvent(tr, c)]
  {
    assert [c][..0] == [];
    assert ConnEvents(tr, query, []) == [];
  }

  lemma OneProcess(tb: Table, tr: seq<Tree>, query: Pid, p: Pid)
    requires p in tb
    ensures TableEvents(tb, tr, query, [p]) == ConnEvents(tr, query, tb[p].connections)
  {
    assert [p][..0] == [];
    assert TableEvents(tb, tr, query, []) == [];
  }

  lemma OneEvent(e: Event, pids: set<Pid>)
    ensures Include(AddAll(EMPTY, [e]), pids).included == e.adds + pids
  {
    var none: seq<Event> := [];
    assert [e][..0] == none;
    assert AddAll(EMPTY, none) == EMPTY;
  }

  /** A process that is not in the tree has no ancestors there. */
  lemma {:induction false} NoAncestors(tr: seq<Tree>, p: Pid)
    requires p !in Pids(tr)
    ensures Ancestors(tr, p) == []
  {
    if tr != [] {
      NoAncestors(tr[1..], p);
    }
  }

  /** A report on one process whose one connection is to a process that has exited. */
  lemma StaleIncluded(tb: Table, tr: seq<Tree>, query: Pid, p: Pid, c: Connection)
    requires p in tb && tb[p].connections == [c] && !Skips(query, c)
    requires IsProcess(c.peer.pid) && c.peer.pid !in tb && c.peer.pid !in Pids(tr)
    ensures TableEvents(tb, tr, query, [p]) == [ConnEvent(tr, c)]
    ensures !PeersKnown(tb, query, {p})
    ensures Include(AddAll(EMPTY, TableEvents(tb, tr, query, [p])), {p}).included == {p, c.peer.pid}
  {
    NoAncestors(tr, c.peer.pid);
    OneConnection(tr, query, c);
    OneProcess(tb, tr, query, p);
    assert c in tb[p].connections && !PeerKnown(tb, query, c);
    OneEvent(ConnEvent(tr, c), {p});
  }

  /** The report then includes a process that is not in the table. */
  lemma StalePeerIsNil(tb: Table, tr: seq<Tree>, query: Pid, p: Pid)
    requires tb == STALE_TABLE && tr == STALE_TREE && query == 0 && p == 5
    ensures ValidTable(tb) && IsForest(tr, tb.Keys, ParentsOf(tb)) && !PeersKnown(tb, query, {p})
    ensures Include(AddAll(EMPTY, TableEvents(tb, tr, query, [p])), {p}).included == {p, 9}
  {
    StaleTree();
    var stale := STALE;
    assert stale.peer.pid !in SetOf(Pids(tr));
    StaleIncluded(tb, tr, query, p, stale);
  }

  lemma BothWays(es: seq<Event>, a: Event, b: Event)
    requires a in es && b in es && a.id.0 == b.id.1 && a.id.1 == b.id.0
    ensures !Acyclic(AddAll(EMPTY, es).edges.Keys)
  {
    EdgeIds(EMPTY, es, a.id);
    EdgeIds(EMPTY, es, b.id);
    var ids := AddAll(EMPTY, es).edges.Keys;
    assert (a.id.0, a.id.1) in ids && (a.id.1, a.id.0) in ids;
    if Acyclic(ids) {
      NoAntiparallel(ids, a.id.0, a.id.1);
    }
  }

  /** When it is the parent, the report drawn nevertheless, with a nil process in the tree, would join the two in both
      directions. */
  lemma StalePeerMakesCycle(tb: Table, tr: seq<Tree>, itr: seq<Tree>, query: Pid, p: Pid)
    requires tb == LEFT_TABLE && tr == LEAF && itr == LEFT_REPORT && query == 0 && p == 5
    ensures ValidTable(tb) && IsForest(tr, tb.Keys, ParentsOf(tb)) && !PeersKnown(tb, query, {p})
    ensures Include(AddAll(EMPTY, TableEvents(tb, tr, query, [p])), {p}).included == {p, 9}
    ensures IsForest(itr, {p, 9}, ParentsOf(tb))
    ensures !Acyclic(AddAll(EMPTY, AllEvents(tb, tr, query, [p], itr)).edges.Keys)
  {
    LeftTrees();
    var stale := STALE;
    assert stale.peer.pid !in SetOf(Pids(tr));
    StaleIncluded(tb, tr, query, p, stale);
    var es := AllEvents(tb, tr, query, [p], itr);
    var conn, parent := ConnEvent(tr, stale), ParentEvent((9, 5));
    assert es[0] == conn && es[1] == parent;
    assert conn.id == (5, 9) by {
      NoAncestors(tr, 9);
      assert tr[0].children == [] && tr[1..] == [];
    }
    BothWays(es, conn, parent);
  }
}
