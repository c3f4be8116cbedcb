/** The pseudo pids that process/connection_unix.go hands out for hosts and data nodes while it parses lsof's lines. */
module Allocator {
  import opened Collections
  import opened ProcessTypes
  import opened Connections
  import G = GraphContents

  /** A line's columns, as the switch on its type leaves them. `Pair` covers the pipes and FIFOs: both ends named. */
  datatype Kind =
    | Data(typ: string, name: string)
    | Key(typ: string, device: string)
    | Pair(fifo: bool, self: string, peer: string, peerPid: Pid)
    | Unix(self: string, peer: string, peerPid: Pid)
    | Inet(protocol: string, self: string, host: string, port: string, hostPort: bool)
    | Other(typ: string)

  /** A line of lsof: the end of a cycle, or a file of a process; `devNull` if the name is that of the null device. */
  datatype Line = Cycle | File(pid: Pid, devNull: bool, kind: Kind)

  /** A node's key, and whether it is asked for as a host. */
  datatype Request = Request(key: string, host: bool)

  datatype State = State(epm: EpMap, nodes: map<string, Pid>, hostPid: Pid, dataPid: Pid)

  const START := State(map[], map[], -1, MAX_INT32)

  // ---------------------------------------------------------------- one line

  function JoinHostPort(host: string, port: string): string {
    if ':' in host then "[" + host + "]:" + port else host + ":" + port
  }

  function Asks(kind: Kind): Option<Request> {
    match kind
    case Data(_, name) => Some(Request(name, false))
    case Key(_, device) => Some(Request(device, false))
    case Pair(_, _, _, _) => None
    case Unix(_, peer, _) => if peer != "" && peer[0] == '/' then Some(Request(peer, false)) else None
    case Inet(protocol, _, host, port, hostPort) =>
      if hostPort then Some(Request(protocol + JoinHostPort(host, port), true)) else None
    case Other(_) => None
  }

  function LineAsks(line: Line): Option<Request> {
    if line.Cycle? then None else Asks(line.kind)
  }

  function NodePid(nodes: map<string, Pid>, kind: Kind): Pid {
    if Asks(kind).Some? && Asks(kind).value.key in nodes then nodes[Asks(kind).value.key] else 0
  }

  /** A connection naming neither end is to a node named by its type. */
  function Conn(typ: string, pid: Pid, self: string, peer: string, peerPid: Pid): Connection {
    Connection(typ, Endpoint(self, pid), Endpoint(if self == "" && peer == "" then typ else peer, peerPid))
  }

  function PairType(fifo: bool): string {
    if fifo then "FIFO" else "PIPE"
  }

  function Conns(pid: Pid, devNull: bool, kind: Kind, nodes: map<string, Pid>): seq<Connection> {
    match kind
    case Data(typ, name) => if devNull then [] else [Conn(typ, pid, "", name, NodePid(nodes, kind))]
    case Key(typ, device) => if devNull then [] else [Conn(typ, pid, "", device, NodePid(nodes, kind))]
    case Pair(fifo, self, peer, peerPid) => if devNull then [] else [Conn(PairType(fifo), pid, self, peer, peerPid)]
    case Unix(self, peer, peerPid) =>
      if peer == "" then []
      else
        (if devNull then [] else [Conn("unix", pid, self, peer, peerPid)])
        + if peer[0] == '/' then [Conn("unix", pid, "", peer, NodePid(nodes, kind))] else []
    case Inet(protocol, self, host, port, _) =>
      if devNull then [] else [Conn(protocol, pid, self, JoinHostPort(host, port), NodePid(nodes, kind))]
    case Other(typ) => if devNull then [] else [Conn(typ, pid, "", "", 0)]
  }

  function Allocate(s: State, r: Request): State {
    if r.key in s.nodes then s
    else if r.host then s.(nodes := s.nodes[r.key := s.hostPid], hostPid := s.hostPid - 1)
    else s.(nodes := s.nodes[r.key := s.dataPid], dataPid := s.dataPid + 1)
  }

  function Get(epm: EpMap, p: Pid): seq<Connection> {
    if p in epm then epm[p] else []
  }

  function Add(epm: EpMap, p: Pid, cs: seq<Connection>): EpMap {
    if cs == [] then epm else epm[p := Get(epm, p) + cs]
  }

  function After(s: State, line: Line): State {
    match line
    case Cycle => s.(epm := map[])
    case File(pid, devNull, kind) =>
      var r := if Asks(kind).None? then s else Allocate(s, Asks(kind).value);
      r.(epm := Add(r.epm, pid, Conns(pid, devNull, kind, r.nodes)))
  }

  function Run(lines: seq<Line>): State {
    if lines == [] then START else After(Run(lines[..|lines|-1]), lines[|lines|-1])
  }

  // ---------------------------------------------------------------- the parser

  class Parser {
    var epm: EpMap
    var nodes: map<string, Pid>
    var hostPid: Pid
    var dataPid: Pid
    var epMap: EpMap

    ghost function Now(): State
      reads this
    {
      State(epm, nodes, hostPid, dataPid)
    }

    constructor ()
      ensures Now() == START && epMap == map[]
    {
      epm, nodes, hostPid, dataPid, epMap := map[], map[], -1, MAX_INT32, map[];
    }

    method HostNode(key: string) returns (pid: Pid)
      modifies this`nodes, this`hostPid
      ensures Now() == Allocate(old(Now()), Request(key, true))
      ensures key in nodes && pid == nodes[key]
    {
      if key in nodes {
        return nodes[key];
      }
      pid := hostPid;
      nodes := nodes[key := hostPid];
      hostPid := hostPid - 1;
    }

    method DataNode(key: string) returns (pid: Pid)
      modifies this`nodes, this`dataPid
      ensures Now() == Allocate(old(Now()), Request(key, false))
      ensures key in nodes && pid == nodes[key]
    {
      if key in nodes {
        return nodes[key];
      }
      pid := dataPid;
      nodes := nodes[key := dataPid];
      dataPid := dataPid + 1;
    }

    method Connect(devNull: bool, typ: string, pid: Pid, self: string, peer: string, peerPid: Pid)
      modifies this`epm
      ensures epm == Add(old(epm), pid, if devNull then [] else [Conn(typ, pid, self, peer, peerPid)])
    {
      var name := if self == "" && peer == "" then typ else peer;
      if !devNull {
        epm := epm[pid := Get(epm, pid) + [Connection(typ, Endpoint(self, pid), Endpoint(name, peerPid))]];
      }
    }

    method ReadFile(pid: Pid, devNull: bool, kind: Kind)
      modifies this`epm, this`nodes, this`hostPid, this`dataPid
      ensures Now() == After(old(Now()), File(pid, devNull, kind))
    {
      match kind
      case Data(typ, name) =>
        var peerPid := DataNode(name);
        Connect(devNull, typ, pid, "", name, peerPid);
      case Key(typ, device) =>
        var peerPid := DataNode(device);
        Connect(devNull, typ, pid, "", device, peerPid);
      case Pair(fifo, self, peer, peerPid) =>
        Connect(devNull, PairType(fifo), pid, self, peer, peerPid);
      case Unix(self, peer, peerPid) =>
        if peer == "" {
          return;
        }
        Connect(devNull, "unix", pid, self, peer, peerPid);
        if peer[0] == '/' {
          var filePid := DataNode(peer);
          Connect(false, "unix", pid, "", peer, filePid);
        }
        AddTwice(old(epm), pid, if devNull then [] else [Conn("unix", pid, self, peer, peerPid)],
                 if peer[0] == '/' then [Conn("unix", pid, "", peer, NodePid(nodes, kind))] else []);
      case Inet(protocol, self, host, port, hostPort) =>
        var peer := JoinHostPort(host, port);
        var peerPid := 0;
        if hostPort {
          peerPid := HostNode(protocol + peer);
        }
        Connect(devNull, protocol, pid, self, peer, peerPid);
      case Other(typ) =>
        Connect(devNull, typ, pid, "", "", 0);
    }

    /** The end of a cycle resolves the connections read in it, publishes them and starts over. */
    method EndCycle() returns (ghost eps: EpIndex, ghost order: seq<EpKey>)
      requires Parsed(epm)
      modifies this
      ensures Now() == After(old(Now()), Cycle)
      ensures IndexOf(eps, old(epm)) && Counts(eps, old(epm)) && Enumerates(order, eps.Keys)
      ensures epMap == ResolveAll(old(epm), eps, order)
    {
      var resolver := new EndpointMap(epm);
      var panicked;
      panicked, eps, order := resolver.Connections();
      NeverPanics(epm);
      assert forall p, i :: p in epm && 0 <= i < |epm[p]| ==> ParsedConn(p, epm[p][i]);
      epMap := resolver.epm;
      epm := map[];
    }

    /** The loop over lsof's output. */
    method Parse(lines: seq<Line>)
      requires Now() == START
      modifies this
      ensures Now() == Run(lines)
    {
      var k := 0;
      while k < |lines|
        invariant k <= |lines|
        invariant Now() == Run(lines[..k])
      {
        assert lines[..k+1][..k] == lines[..k];
        match lines[k] {
          case Cycle =>
            RunParsed(lines[..k]);
            var _, _ := EndCycle();
          case File(pid, devNull, kind) => ReadFile(pid, devNull, kind);
        }
        k := k + 1;
      }
      assert lines[..|lines|] == lines;
    }
  }

  lemma AddTwice(epm: EpMap, p: Pid, a: seq<Connection>, b: seq<Connection>)
    ensures Add(Add(epm, p, a), p, b) == Add(epm, p, a + b)
  {
    if a == [] {
      assert a + b == b;
    } else if b == [] {
      assert a + b == a;
    } else {
      assert Get(epm, p) + a + b == Get(epm, p) + (a + b);
    }
  }

  // ---------------------------------------------------------------- what the resolver is given

  predicate ParsedConn(p: Pid, c: Connection) {
    c.self.pid == p && !Panics(c)
  }

  /** Every connection is filed under its own pid, and none makes the resolver panic. */
  predicate Parsed(epm: EpMap) {
    forall p :: p in epm ==> forall i :: 0 <= i < |epm[p]| ==> ParsedConn(p, epm[p][i])
  }

  lemma ConnsParsed(pid: Pid, devNull: bool, kind: Kind, nodes: map<string, Pid>)
    ensures forall i :: 0 <= i < |Conns(pid, devNull, kind, nodes)| ==> ParsedConn(pid, Conns(pid, devNull, kind, nodes)[i])
  {
    if kind.Inet? {
      assert |JoinHostPort(kind.host, kind.port)| > 0;
    }
  }

  lemma {:induction false} RunParsed(lines: seq<Line>)
    ensures Parsed(Run(lines).epm)
  {
    if lines != [] {
      RunParsed(lines[..|lines|-1]);
      var line := lines[|lines|-1];
      if line.File? {
        ConnsParsed(line.pid, line.devNull, line.kind, Run(lines).nodes);
      }
    }
  }

  lemma NeverPanics(epm: EpMap)
    requires Parsed(epm)
    ensures !exists p, c :: p in epm && c in epm[p] && Panics(c)
  {
    forall p, c | p in epm && c in epm[p] ensures !Panics(c) {
      var i :| 0 <= i < |epm[p]| && epm[p][i] == c;
      assert ParsedConn(p, epm[p][i]);
    }
  }

  // ---------------------------------------------------------------- the allocator's invariant

  /** Hosts' pids count down from -1 and data nodes' up from MAX_INT32; no two keys share one. */
  ghost predicate Sound(s: State) {
    && s.hostPid < 0 && s.dataPid >= MAX_INT32
    && (forall k :: k in s.nodes ==> s.hostPid < s.nodes[k] < 0 || MAX_INT32 <= s.nodes[k] < s.dataPid)
    && (forall j, k :: j in s.nodes && k in s.nodes && s.nodes[j] == s.nodes[k] ==> j == k)
    && |s.nodes| == (-1 - s.hostPid) + (s.dataPid - MAX_INT32)
  }

  lemma AllocateSound(s: State, r: Request)
    requires Sound(s)
    ensures Sound(Allocate(s, r))
  {
  }

  lemma {:induction false} RunSound(lines: seq<Line>)
    ensures Sound(Run(lines))
  {
    if lines != [] {
      RunSound(lines[..|lines|-1]);
      var line := lines[|lines|-1];
      if line.File? && Asks(line.kind).Some? {
        AllocateSound(Run(lines[..|lines|-1]), Asks(line.kind).value);
      }
    }
  }

  /** Every pid handed out is in use: the pids used are exactly two full ranges, one on each side of the real ones. */
  lemma PidsAreContiguous(lines: seq<Line>, pid: Pid)
    ensures var s := Run(lines);
            pid in s.nodes.Values <==> s.hostPid < pid < 0 || MAX_INT32 <= pid < s.dataPid
  {
    RunInUse(lines, pid);
    RunSound(lines);
  }

  ghost predicate InUse(s: State, pid: Pid) {
    exists k :: k in s.nodes && s.nodes[k] == pid
  }

  lemma {:induction false} RunInUse(lines: seq<Line>, pid: Pid)
    ensures var s := Run(lines); s.hostPid < pid < 0 || MAX_INT32 <= pid < s.dataPid ==> InUse(s, pid)
  {
    if lines != [] {
      RunInUse(lines[..|lines|-1], pid);
      var s, line := Run(lines[..|lines|-1]), lines[|lines|-1];
      if line.File? && Asks(line.kind).Some? {
        AllocateInUse(s, Asks(line.kind).value, pid);
      }
    }
  }

  lemma AllocateInUse(s: State, r: Request, pid: Pid)
    requires s.hostPid < pid < 0 || MAX_INT32 <= pid < s.dataPid ==> InUse(s, pid)
    ensures var t := Allocate(s, r); t.hostPid < pid < 0 || MAX_INT32 <= pid < t.dataPid ==> InUse(t, pid)
  {
    var t := Allocate(s, r);
    if InUse(s, pid) {
      var k :| k in s.nodes && s.nodes[k] == pid;
      assert k in t.nodes && t.nodes[k] == pid;
    } else if r.key in t.nodes && t.nodes[r.key] == pid {
      assert InUse(t, pid);
    }
  }

  /** A name keeps its pid through all later lines and cycles. */
  lemma {:induction false} Persistent(lines: seq<Line>, k: nat, key: string)
    requires k <= |lines| && key in Run(lines[..k]).nodes
    ensures key in Run(lines).nodes && Run(lines).nodes[key] == Run(lines[..k]).nodes[key]
  {
    if k == |lines| {
      assert lines[..k] == lines;
    } else {
      assert lines[..|lines|-1][..k] == lines[..k];
      Persistent(lines[..|lines|-1], k, key);
    }
  }

  // ---------------------------------------------------------------- classification

  /** Line `k` asks for a node. */
  predicate AsksAt(lines: seq<Line>, k: nat) {
    k < |lines| && LineAsks(lines[k]).Some?
  }

  function RequestAt(lines: seq<Line>, k: nat): Request
    requires AsksAt(lines, k)
  {
    LineAsks(lines[k]).value
  }

  lemma Answered(lines: seq<Line>, k: nat)
    requires AsksAt(lines, k)
    ensures RequestAt(lines, k).key in Run(lines[..k+1]).nodes
    ensures RequestAt(lines, k).key in Run(lines).nodes
    ensures Run(lines).nodes[RequestAt(lines, k).key] == Run(lines[..k+1]).nodes[RequestAt(lines, k).key]
  {
    assert lines[..k+1][..k] == lines[..k];
    Persistent(lines, k + 1, RequestAt(lines, k).key);
  }

  /** The node graph takes the pid for the kind of node it was asked for as. */
  predicate Classified(r: Request, pid: Pid) {
    if r.host then G.IsHost(pid) else G.IsData(pid)
  }

  /** The first request for a key decides its pid's kind. */
  lemma {:induction false} FirstDecides(lines: seq<Line>, key: string) returns (k: nat)
    requires key in Run(lines).nodes
    ensures AsksAt(lines, k) && RequestAt(lines, k).key == key && Classified(RequestAt(lines, k), Run(lines).nodes[key])
  {
    var n := |lines| - 1;
    if key in Run(lines[..n]).nodes {
      k := FirstDecides(lines[..n], key);
      Persistent(lines, n, key);
    } else {
      RunSound(lines[..n]);
      k := n;
    }
  }

  /** No key is asked for both as a host and as data. */
  ghost predicate OneKindPerKey(lines: seq<Line>) {
    forall i, j :: AsksAt(lines, i) && AsksAt(lines, j) && RequestAt(lines, i).key == RequestAt(lines, j).key
      ==> RequestAt(lines, i).host == RequestAt(lines, j).host
  }

  ghost predicate AllClassified(lines: seq<Line>) {
    forall k :: AsksAt(lines, k) ==>
      RequestAt(lines, k).key in Run(lines).nodes && Classified(RequestAt(lines, k), Run(lines).nodes[RequestAt(lines, k).key])
  }

  /** Every node is classified as it was asked for exactly when no key is asked for as both kinds. */
  lemma ClassifiedIffOneKind(lines: seq<Line>)
    ensures AllClassified(lines) <==> OneKindPerKey(lines)
  {
    if OneKindPerKey(lines) {
      forall k | AsksAt(lines, k)
        ensures RequestAt(lines, k).key in Run(lines).nodes
        ensures Classified(RequestAt(lines, k), Run(lines).nodes[RequestAt(lines, k).key])
      {
        Answered(lines, k);
        var first := FirstDecides(lines, RequestAt(lines, k).key);
      }
    }
  }

  /** A data path that reads like a protocol followed by an address gets the host's pid when the host came first. */
  lemma SharedKeyMisclassified()
    ensures !AllClassified([File(1, false, Inet("TCP", "", "h", "80", true)), File(1, false, Data("REG", "TCPh:80"))])
  {
    var lines := [File(1, false, Inet("TCP", "", "h", "80", true)), File(1, false, Data("REG", "TCPh:80"))];
    assert JoinHostPort("h", "80") == "h:80";
    assert "TCP" + "h:80" == "TCPh:80";
    assert AsksAt(lines, 0) && RequestAt(lines, 0) == Request("TCPh:80", true);
    assert AsksAt(lines, 1) && RequestAt(lines, 1) == Request("TCPh:80", false);
    assert !OneKindPerKey(lines);
    ClassifiedIffOneKind(lines);
  }

  // ---------------------------------------------------------------- what a cycle publishes

  /** The connections of a process read since the last end of a cycle, with the pids the nodes have in the end. */
  function Since(lines: seq<Line>, nodes: map<string, Pid>, p: Pid): seq<Connection> {
    if lines == [] || lines[|lines|-1].Cycle? then []
    else
      var line := lines[|lines|-1];
      Since(lines[..|lines|-1], nodes, p) + if line.pid == p then Conns(p, line.devNull, line.kind, nodes) else []
  }

  /** All lines' nodes are known, so that knowing more changes nothing. */
  ghost predicate Extends(nodes: map<string, Pid>, more: map<string, Pid>) {
    forall k :: k in nodes ==> k in more && more[k] == nodes[k]
  }

  lemma {:induction false} SinceStable(lines: seq<Line>, nodes: map<string, Pid>, p: Pid)
    requires Extends(Run(lines).nodes, nodes)
    ensures Since(lines, nodes, p) == Since(lines, Run(lines).nodes, p)
  {
    if lines != [] && lines[|lines|-1].File? {
      var n, line := |lines| - 1, lines[|lines|-1];
      SinceStable(lines[..n], nodes, p);
      SinceStable(lines[..n], Run(lines).nodes, p);
      if Asks(line.kind).Some? {
        assert Asks(line.kind).value.key in Run(lines).nodes;
      }
      assert NodePid(nodes, line.kind) == NodePid(Run(lines).nodes, line.kind);
    }
  }

  /** At any time the map holds, for each process, just the connections of its lines in this cycle, in order. */
  lemma {:induction false} HoldsThisCycle(lines: seq<Line>, p: Pid)
    ensures Get(Run(lines).epm, p) == Since(lines, Run(lines).nodes, p)
  {
    if lines != [] {
      var n, line := |lines| - 1, lines[|lines|-1];
      HoldsThisCycle(lines[..n], p);
      if line.File? {
        SinceStable(lines[..n], Run(lines).nodes, p);
      }
    }
  }

  /** No line after the first `k` ends a cycle. */
  predicate SameCycle(lines: seq<Line>, k: nat) {
    forall j :: k <= j < |lines| ==> lines[j].File?
  }

  /** The connections that a line's columns call for, `node` being the pid of a node's key: to a named file or device; between
      the ends of a pipe; to a socket's peer, and to its file; to an address; and else to a node named by the type. */
  predicate CallsFor(p: Pid, devNull: bool, kind: Kind, nodes: map<string, Pid>, c: Connection) {
    c.self.pid == p && c.typ == TypeOf(kind) &&
    match kind
    case Data(typ, name) =>
      !devNull && c.self.name == "" && IsNode(nodes, name, c.peer.pid) && c.peer.name == if name == "" then typ else name
    case Key(typ, device) =>
      !devNull && c.self.name == "" && IsNode(nodes, device, c.peer.pid) && c.peer.name == if device == "" then typ else device
    case Pair(_, self, peer, peerPid) =>
      !devNull && c.self.name == self && c.peer.pid == peerPid && c.peer.name == if self == "" && peer == "" then TypeOf(kind) else peer
    case Unix(self, peer, peerPid) =>
      && peer != "" && c.peer.name == peer
      && ((!devNull && c.self.name == self && c.peer.pid == peerPid)
          || (peer[0] == '/' && c.self.name == "" && IsNode(nodes, peer, c.peer.pid)))
    case Inet(protocol, self, host, port, hostPort) =>
      && !devNull && c.self.name == self && c.peer.name == JoinHostPort(host, port)
      && (if hostPort then IsNode(nodes, protocol + JoinHostPort(host, port), c.peer.pid) else c.peer.pid == 0)
    case Other(typ) => !devNull && c.self.name == "" && c.peer == Endpoint(typ, 0)
  }

  predicate IsNode(nodes: map<string, Pid>, key: string, pid: Pid) {
    key in nodes && pid == nodes[key]
  }

  function TypeOf(kind: Kind): string {
    match kind
    case Data(typ, _) => typ
    case Key(typ, _) => typ
    case Pair(fifo, _, _, _) => if fifo then "FIFO" else "PIPE"
    case Unix(_, _, _) => "unix"
    case Inet(protocol, _, _, _, _) => protocol
    case Other(typ) => typ
  }

  lemma ConnsCalledFor(p: Pid, devNull: bool, kind: Kind, nodes: map<string, Pid>, c: Connection)
    requires Asks(kind).Some? ==> Asks(kind).value.key in nodes
    ensures c in Conns(p, devNull, kind, nodes) <==> CallsFor(p, devNull, kind, nodes, c)
  {
    if kind.Inet? {
      assert |JoinHostPort(kind.host, kind.port)| > 0;
    }
  }

  /** Line `k` belongs to the process and the current cycle. */
  predicate Current(lines: seq<Line>, k: nat, p: Pid) {
    k < |lines| && SameCycle(lines, k) && lines[k].pid == p
  }

  lemma CurrentBefore(lines: seq<Line>, k: nat, p: Pid)
    requires lines != [] && lines[|lines|-1].File? && k < |lines| - 1
    ensures Current(lines, k, p) <==> Current(lines[..|lines|-1], k, p)
  {
    var front := lines[..|lines|-1];
    if SameCycle(front, k) {
      forall j | k <= j < |lines| ensures lines[j].File? {
        assert j < |lines| - 1 ==> front[j] == lines[j];
      }
    }
  }

  lemma {:induction false} SinceFrom(lines: seq<Line>, nodes: map<string, Pid>, p: Pid, c: Connection) returns (k: nat)
    requires c in Since(lines, nodes, p)
    ensures Current(lines, k, p) && c in Conns(p, lines[k].devNull, lines[k].kind, nodes)
  {
    k := |lines| - 1;
    if !(lines[k].pid == p && c in Conns(p, lines[k].devNull, lines[k].kind, nodes)) {
      k := SinceFrom(lines[..k], nodes, p, c);
      CurrentBefore(lines, k, p);
    }
  }

  lemma {:induction false} CurrentSince(lines: seq<Line>, nodes: map<string, Pid>, p: Pid, k: nat, c: Connection)
    requires Current(lines, k, p) && c in Conns(p, lines[k].devNull, lines[k].kind, nodes)
    ensures c in Since(lines, nodes, p)
  {
    if k < |lines| - 1 {
      CurrentBefore(lines, k, p);
      CurrentSince(lines[..|lines|-1], nodes, p, k, c);
    }
  }

  lemma LineCallsFor(lines: seq<Line>, k: nat, p: Pid, c: Connection)
    requires Current(lines, k, p)
    ensures c in Conns(p, lines[k].devNull, lines[k].kind, Run(lines).nodes) <==>
            CallsFor(p, lines[k].devNull, lines[k].kind, Run(lines).nodes, c)
  {
    if Asks(lines[k].kind).Some? {
      assert AsksAt(lines, k);
      Answered(lines, k);
    }
    ConnsCalledFor(p, lines[k].devNull, lines[k].kind, Run(lines).nodes, c);
  }

  /** At any time the map holds for a process just the connections that its lines since the last end of a cycle call for,
      with the pids that their nodes have in the end. */
  lemma HeldIff(lines: seq<Line>, p: Pid, c: Connection)
    ensures c in Get(Run(lines).epm, p) <==>
            exists k: nat :: Current(lines, k, p) && CallsFor(p, lines[k].devNull, lines[k].kind, Run(lines).nodes, c)
  {
    var nodes := Run(lines).nodes;
    HoldsThisCycle(lines, p);
    if c in Since(lines, nodes, p) {
      var k := SinceFrom(lines, nodes, p, c);
      LineCallsFor(lines, k, p, c);
    }
    if k: nat :| Current(lines, k, p) && CallsFor(p, lines[k].devNull, lines[k].kind, nodes, c) {
      LineCallsFor(lines, k, p, c);
      CurrentSince(lines, nodes, p, k, c);
    }
  }
}
