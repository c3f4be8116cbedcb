/** The node graph of process connections: process/nodegraph.go. */
module Nodegraph {
  import opened Collections
  import opened ProcessTypes
  import opened Forest
  import opened GraphContents
  import opened GraphReport

  // ---------------------------------------------------------------- the code

  class Graph {
    var hosts: map<Pid, Connection>
    var datas: map<Pid, Connection>
    var included: set<Pid>
    var edges: map<EdgeId, Edge>

    ghost function Contents(): GraphContents.Contents
      reads this
    {
      Drawn(hosts, datas, included, edges)
    }

    constructor ()
      ensures Contents() == EMPTY
    {
      hosts, datas, included, edges := map[], map[], {}, map[];
    }

    method AppendLine(id: EdgeId, seed: Seed, line: Line)
      modifies this`edges
      ensures edges == old(edges)[id := if id in old(edges) then Edge(old(edges)[id].seed, old(edges)[id].lines + [line]) else Edge(seed, [line])]
    {
      if id !in edges {
        edges := edges[id := Edge(seed, [])];
      }
      edges := edges[id := Edge(edges[id].seed, edges[id].lines + [line])];
      assert id !in old(edges) ==> [] + [line] == [line];
      assert edges == old(edges)[id := edges[id]];
    }

    method AddConnection(tr: seq<Tree>, conn: Connection)
      modifies this
      ensures Contents() == AddEvent(old(Contents()), ConnEvent(tr, conn))
    {
      if conn.peer.pid < 0 {
        if conn.peer.pid !in hosts {
          hosts := hosts[conn.peer.pid := conn];
        }
        // a host's edges point from it, so that it is laid out before the processes
        AppendLine((conn.peer.pid, conn.self.pid), HostSeed(conn),
                   HostLine(conn.typ, conn.peer.name, conn.self.name, conn.self.pid));
      } else if conn.peer.pid >= MAX_INT32 {
        if conn.peer.pid !in datas {
          datas := datas[conn.peer.pid := conn];
        }
        AppendLine((conn.self.pid, conn.peer.pid), DataSeed(conn), DataLine(conn.self.pid, conn.typ, conn.peer.name));
      } else {
        included := included + {conn.peer.pid};
        var ancestors := Ancestors(tr, conn.peer.pid);
        for i := 0 to |ancestors|
          invariant included == old(included) + {conn.peer.pid} + set p | p in ancestors[..i]
          invariant hosts == old(hosts) && datas == old(datas) && edges == old(edges)
        {
          assert ancestors[..i+1] == ancestors[..i] + [ancestors[i]];
          included := included + {ancestors[i]};
        }
        assert ancestors[..|ancestors|] == ancestors;
        var self, peer := conn.self.name, conn.peer.name;
        var selfPid, peerPid := conn.self.pid, conn.peer.pid;
        if |Ancestors(tr, selfPid)| > |Ancestors(tr, peerPid)|
           || (|Ancestors(tr, selfPid)| == |Ancestors(tr, peerPid)| && conn.self.pid > conn.peer.pid)
        {
          selfPid, peerPid := peerPid, selfPid;
          self, peer := peer, self;
        }
        AppendLine((selfPid, peerPid), ProcSeed(selfPid, peerPid), ProcLine(conn.typ, self, selfPid, peer, peerPid));
      }
    }

    method AddProcess(tr: seq<Tree>, query: Pid, pid: Pid, conns: seq<Connection>)
      modifies this
      ensures Contents() == AddAll(Include(old(Contents()), {pid}), ConnEvents(tr, query, conns))
    {
      included := included + {pid};
      ghost var start := Contents();
      for i := 0 to |conns|
        invariant Contents() == AddAll(start, ConnEvents(tr, query, conns[..i]))
      {
        assert conns[..i+1][..|conns[..i+1]|-1] == conns[..i];
        var conn := conns[i];
        if !Skips(query, conn) {
          var es := ConnEvents(tr, query, conns[..i]);
          AddAllConcat(start, es, [ConnEvent(tr, conn)]);
          assert [ConnEvent(tr, conn)][..0] == [];
          AddConnection(tr, conn);
        }
      }
      assert conns[..|conns|] == conns;
    }

    /** Ranges over the selected processes in any order. */
    method AddTable(tb: Table, tr: seq<Tree>, query: Pid, pt: set<Pid>) returns (ghost order: seq<Pid>)
      requires pt <= tb.Keys
      modifies this
      ensures Enumerates(order, pt)
      ensures Contents() == Include(AddAll(old(Contents()), TableEvents(tb, tr, query, order)), pt)
    {
      order := [];
      var todo := pt;
      while todo != {}
        invariant todo <= pt && Enumerates(order, pt - todo)
        invariant Contents() == Include(AddAll(old(Contents()), TableEvents(tb, tr, query, order)), pt - todo)
      {
        NonEmpty(todo);
        var pid :| pid in todo;
        EnumeratesNext(order, pt, todo, pid);
        ghost var es, more := TableEvents(tb, tr, query, order), ConnEvents(tr, query, tb[pid].connections);
        ghost var g := old(Contents());
        AddAllConcat(g, es, more);
        IncludeCommutes(Include(AddAll(g, es), pt - todo), {pid}, more);
        IncludeCommutes(AddAll(g, es), pt - todo, more);
        assert pt - (todo - {pid}) == pt - todo + {pid};
        assert AddAll(g, es + more).included + (pt - todo) + {pid} == AddAll(g, es + more).included + (pt - (todo - {pid}));
        AddProcess(tr, query, pid, tb[pid].connections);
        todo, order := todo - {pid}, order + [pid];
      }
      assert pt - todo == pt;
    }

    /** One step of the walk: moves the stack to the node and connects the node to its parent. */
    method VisitNode(stack: seq<Pid>, depth: nat, pid: Pid) returns (parents: seq<Pid>)
      requires depth <= |stack|
      modifies this
      ensures parents == Push(stack, depth, pid)
      ensures Contents() == AddAll(old(Contents()), ParentEvents(TopLink(stack, depth, pid)))
    {
      parents := stack;
      if depth == 0 {
        parents := [pid];
        return;
      } else if depth < |parents| {
        parents := parents[..depth];
        parents := parents + [pid];
      } else if depth == |parents| {
        parents := parents + [pid];
      }
      var id := (parents[depth-1], parents[depth]);
      assert ParentEvents([id]) == [ParentEvent(id)];
      assert [ParentEvent(id)][..0] == [];
      AppendLine(id, ProcSeed(id.0, id.1), ParentLine(id.0, id.1));
      assert Contents() == AddEvent(old(Contents()), ParentEvent(id)) by {
        assert included == included + {};
      }
    }

    /** Connects the parents to their children, keeping the path to the current node on a stack. */
    method AddParents(itr: seq<Tree>)
      modifies this
      ensures Contents() == AddAll(old(Contents()), ParentEvents(Links(itr)))
    {
      var walk := Walk(itr, 0);
      var parents: seq<Pid> := [];
      ghost var done: seq<(Pid, Pid)> := [];
      TrackStart(itr);
      assert walk[0..] == walk;
      for i := 0 to |walk|
        invariant OnTrack(itr, done, parents, walk[i..])
        invariant Contents() == AddAll(old(Contents()), ParentEvents(done))
      {
        var (depth, pid) := walk[i];
        TrackStep(itr, done, parents, walk[i..]);
        assert walk[i..][1..] == walk[i+1..];
        ParentEventsConcat(old(Contents()), done, TopLink(parents, depth, pid));
        done := done + TopLink(parents, depth, pid);
        parents := VisitNode(parents, depth, pid);
      }
      assert walk[|walk|..] == [];
      assert done == Links(itr);
    }

    /** The graph of the processes in `pt`; `buildTree` stands for the tree of a set of processes. Building the tree of
        the included processes asks each for its parent, which fails on a nil process. */
    method Nodegraph(tb: Table, queryPid: Pid, pt: set<Pid>, buildTree: set<Pid> -> seq<Tree>)
      returns (nilProcess: bool, ghost order: seq<Pid>, ghost query: Pid, ghost itr: seq<Tree>)
      requires ValidTable(tb) && pt <= tb.Keys
      requires forall keys :: keys <= tb.Keys ==> IsForest(buildTree(keys), keys, ParentsOf(tb))
      requires Contents() == EMPTY
      modifies this
      ensures query == if queryPid in tb then queryPid else 0
      ensures Enumerates(order, pt)
      ensures nilProcess <==> !PeersKnown(tb, query, pt)
      ensures Shows(Contents(), tb, buildTree(tb.Keys), query, pt, if nilProcess then [] else Links(itr))
      ensures nilProcess ==> Contents() == Include(AddAll(EMPTY, TableEvents(tb, buildTree(tb.Keys), query, order)), pt)
      ensures !nilProcess ==>
                && itr == buildTree(included) && IsForest(itr, included, ParentsOf(tb))
                && Contents() == Include(AddAll(EMPTY, AllEvents(tb, buildTree(tb.Keys), query, order, itr)), pt)
                && Acyclic(edges.Keys)
                && forall id :: id in edges ==> id.0 in hosts.Keys + included && id.1 in datas.Keys + included
    {
      var q := queryPid;
      if queryPid != 0 && queryPid !in tb {
        q := 0;
      }
      query := q;
      itr := [];
      var tr := buildTree(tb.Keys);
      order := AddTable(tb, tr, q, pt);
      IncludedIffKnown(tb, tr, q, order, pt);
      nilProcess := !(included <= tb.Keys);
      if nilProcess {
        ConnectionsShow(tb, tr, q, order, pt);
        return;
      }
      var built := buildTree(included);
      itr := built;
      AddParents(built);
      Assemble(tb, tr, q, order, pt, built);
      GraphIsSound(tb, tr, q, order, pt, built);
      ReportShows(tb, tr, q, order, pt, Links(built));
    }
  }
}
