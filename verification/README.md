# Verified model of gomon

gomon measures and observes a host: it reads process tables, open files, logs and kernel events, relates processes to
each other, and writes what it sees as JSON, to Loki, to Prometheus or as a node graph. This project models the
algorithms inside that plumbing, as the code has them, and proves what they do for every input, every interleaving and
every run. `dafny verify dfyconfig.toml` checks it.

Code that works by updating state is modelled as methods on classes, with loops over fields that hold Go's maps and
slices; each is proved against a specification function, and the lemmas are about that function. A range over a Go map
visits the keys in any order: such a loop picks any key not yet visited, and its specification takes the order as a ghost
sequence. Concurrent code is a state machine whose steps are those of its goroutines.

| files | what they model |
|---|---|
| `Collections`, `Sorting`, `ProcessTypes` | what the others share |
| `Connections`, `PeerResolution`, `EntryCounts` | the resolution of the peers of intra-host connections |
| `Allocator` | the pseudo pids that the lsof parser hands out to hosts and data nodes |
| `Forest`, `GraphContents`, `GraphReport`, `Nodegraph` | the node graph of process connections |
| `Schema`, `BuilderText`, `Protobuf`, `SchemaRoundTrip`, `SchemaTree`, `SchemaPanics`, `SchemaTheorem`, `SchemaKept`, `SchemaForms` | the compiler from an indented field list to nested messages and their copy functions |
| `WatchTable`, `RenameRange`, `FileObserver`, `RenamePairing` | the table of watched files and the pairing of rename events |
| `Netlink`, `PacketFilter` | the scan of netlink attributes and the packet filter of the process connector |
| `Accounting`, `ProcessMonitor` | process accounting between two process tables |
| `Gather`, `Handshake` | two protocols between goroutines |
| `Delivery`, `FileValues`, `Routing`, `Encoder` | the encoder's loop, cache and file rotation |
| `LogWindow`, `LogLines` | the suppression of repeated log records |

## Where the code does not do what it says

Each entry names the theorem that says exactly when, and after it an input on which it happens.

- `PeerResolution.OrderIndependence`, `PeerResolution.MixedTypesDependOnOrder`: the resolved peers depend on the order of
  Go's map iteration exactly when a process names one peer in connections of two types that have different holders.
- `EntryCounts.OneEntryPerHolder`, `EntryCounts.TwiceGrows`: a connection does not always get one entry per holder. Each
  key that names its peer multiplies its entries by the holders listed, once for each time it lists the process: there
  are more as soon as the peer has several holders and the process two connections to it.
- `SchemaKept.SchemaIsKept`, `SchemaKept.LostMessage`: messages of one type name overwrite each other's tree. The schema is
  rebuilt exactly when those of one type have the same members at every level; two observations of one package with
  different events, as process has them on Linux, do not, and the first is lost.
- `SchemaKept.TreeHolds`, `SchemaTree.SharedTypeName`: so it is with structs of one type name under one parent, at every
  level of a message.
- `BuilderText.BalancedIffSlicesAtTop`, `SchemaPanics.UnbalancedSchema`: the single flag for repeated structs makes the text
  unbalanced exactly when a repeated struct is nested or ends its message.
- `SchemaPanics.SchemaPanicsIff`, `SchemaPanics.PanickingSchema`: it makes the compiler panic exactly when a message that
  starts with a plain member comes after one whose last member holds a repeated struct, none but messages of a single
  struct in between.
- `PacketFilter.WhenAsIntended`, `PacketFilter.UserChangeRejected`: each skip over a section is one too long (lines 367, 376
  and 385 of process/netlink_process.go), so that every event other than a fork is judged by the comparison meant for exec,
  and what follows it is never reached. `PacketFilter.SkippingSevenIsIntended`: one instruction less repairs it.
- `GraphContents.IncludedIffKnown`, `GraphContents.StalePeerIsNil`: a connection read in an earlier cycle of lsof may name a
  process that has exited since. It enters the report as a nil process, on which building the report's tree fails. Were
  the peer also the parent still, the graph drawn nevertheless would have a cycle (`GraphContents.StalePeerMakesCycle`).
- `WatchTable.NoticeNamesNewPath`, `WatchTable.MisnamedFile`: a rename notice gives the file's new path exactly when the
  file itself was renamed. Below a renamed directory it gives the new name of the directory (line 214 of
  file/observe_darwin.go), so that every notice is wrong.
- `RenameRange.RunsAgreeIff`, `WatchTable.SettlesIff`: the range of a directory's rename adds to the map that it ranges over.
  Which of these entries Go visits decides the result exactly when an entry is moved to a place below the old path again:
  always when the new path is below the old one, which `RenamePairing.AnyTwoPair` allows for unrelated renames.
- `RenamePairing.LoneRenameDropped`, `RenamePairing.DroppedRename`: a rename without a partner is dropped exactly when only
  events of neither files nor directories follow it.
- `Gather.ReturnNeedsAnswers`, `Gather.WaitsPastTimeout`: Gather's comment promises to wait at most for the timeout. Past it
  or before it, Gather can come to its return exactly when every request has answered.
- `Handshake.WokenUnserved`, `Handshake.OverlapReturnsUnserved`: with two calls of Collect in flight, one can return before
  its metrics are sent.
- `Delivery.CloseReplacesLastFile`, `Delivery.CloseWithinMinute`: on exit the encoder renames its file once more; within the
  resolution of the file's timestamp that replaces the file rotated last.
- `FileValues.OneValueIff`, `FileValues.FailedSwitchWritesTwice`: a file can hold two JSON values exactly when a rotation
  writes after another one that wrote and then failed to switch files.
- `Allocator.ClassifiedIffOneKind`, `Allocator.SharedKeyMisclassified`: the node graph takes a host for a data node, or the
  reverse, exactly when a host's key (protocol and address) is also the name of a data node.
- `ProcessMonitor.Monitor.Measure`, `ProcessMonitor.IdleHost`: a measurement in which no process is new or used CPU indexes
  an empty slice.

## Model

| member | source | states |
|---|---|---|
| Connections.EndpointMap.BuildIndex | process/connection.go:33-51 | the index lists under each key exactly the pids of the connections that register it, sorted, each as often as its connections do; it panics just when a named unix connection has an empty peer name |
| Connections.EndpointMap.Connections | process/connection.go:21-75 | the whole function: on the recovered panic nothing has changed; otherwise the map is the fold of the resolution over the index in some enumeration of its keys |
| Connections.EndpointMap.ResolvePeer | process/connection.go:60-71 | rewriting and extending a slice in place while ranging over its old value leaves the rewritten entries, then the copies, in order |
| PeerResolution.ResolutionMembers | process/connection.go:53-74 | for every visit order and any repetition of pids: a connection is in the result just when it is an original one moved to a holder named by the last key that hits it, or untouched if none does |
| PeerResolution.ResolutionKeepsPrefix | process/connection.go:62-63 | the original entries stay in place, changed only in the peer's pid, to the first holder listed by the last key that hits |
| PeerResolution.MovesToLeast | process/connection.go:49-63 | in the index built from the connections, that is the least holder |
| PeerResolution.ResolutionRefines | process/connection.go:33-74 | for consistent types the result is the set comprehension over the connections alone: one copy per holder of the endpoint a connection names, the others unchanged |
| PeerResolution.OrderIndependence | process/connection.go:53-58 | the result is the same for every order of the range over the index if and only if each process' types agree on the holders of each peer it names |
| PeerResolution.OneTypeIsConsistent | process/connection.go:53-58 | it is so whenever unresolved connections naming the same peer have one type |
| PeerResolution.MixedTypesDependOnOrder | process/connection.go:53-58 | a map of four connections on which the order shows |
| PeerResolution.PeerHolderIff | process/connection.go:36-60 | one process is resolved as holder of another's peer if and only if an unresolved connection of the other, not a named socket, names an end that the one has in a named socket or an unresolved connection of the same type |
| PeerResolution.NamedPeerIsResolved | process/connection.go:37-71 | two unresolved connections of one type, the first naming the second's own end and being no named socket, are joined by every visit of a consistent map |
| PeerResolution.NamedSocketIsFound | process/connection.go:37-71 | so are a unix connection and the named socket whose end it names |
| PeerResolution.NamedSocketNeverAsks | process/connection.go:37-45 | a peer named only in named sockets and in resolved connections is left alone by every visit |
| EntryCounts.ResolutionGrowth | process/connection.go:53-74 | after the whole visit, in any order, a process has as many entries for a connection as it had, times the product over all keys that name its peer of the holders listed to the power of the process' occurrences |
| EntryCounts.EntryCount | process/connection.go:53-74 | exactly how often each entry occurs in the end |
| EntryCounts.OneEntryPerHolder | process/connection.go:65-70 | whichever type's key comes last, a connection gets exactly one entry per holder if and only if each process holds the endpoint in at most one connection of that type, every other type that reaches the peer has one connection holding it, and so has this type, or one connection that names the peer |
| EntryCounts.TwiceGrows | process/connection.go:53-74 | two connections of a process to a peer with two holders become four each, in every visit of the index that is built |
| Allocator.Parser.ReadFile | process/connection_unix.go:202-320 | a line's node is allocated and its connections are appended as its type demands |
| Allocator.Parser.EndCycle | process/connection_unix.go:169-178 | the end of a cycle never makes the resolver panic, and publishes the resolved connections |
| Allocator.Parser.Parse | process/connection_unix.go:152-322 | the loop over the lines computes the run that the lemmas are about |
| Allocator.RunParsed | process/connection_unix.go:298-320 | every connection parsed is filed under its own pid and has a form the resolver can index |
| Allocator.RunSound | process/connection_unix.go:93-100 | at any time host pids are negative, data pids at least the largest 32-bit integer, and no two names share one |
| Allocator.PidsAreContiguous | process/connection_unix.go:286-293 | the pids in use are exactly the two ranges between the start values and the counters |
| Allocator.Persistent | process/connection_unix.go:214-226 | a name keeps its pid through all later lines and cycles |
| Allocator.FirstDecides | process/connection_unix.go:309-314 | the kind of a name's pid is that of the first line that asked for it |
| Allocator.ClassifiedIffOneKind | process/nodegraph.go:89-122 | the node graph's three-way test classifies every allocated peer as it was asked for if and only if no key is asked for as both kinds |
| Allocator.SharedKeyMisclassified | process/connection_unix.go:286-293 | two lines on which it does not |
| Allocator.HoldsThisCycle | process/connection_unix.go:298-320 | the map holds for each process the connections of its lines since the last end of a cycle, in order, with the nodes' final pids |
| Allocator.HeldIff | process/connection_unix.go:202-320 | column by column: a connection is in the map if and only if a line of this cycle calls for it, with its node's final pid; a socket's file counts as a data connection of its own |
| Forest.LinksPartition | process/measure.go:168-177 | every node of a forest is a root or the child of exactly one link |
| Forest.SubforestDepth | process/nodegraph.go:150 | in the tree of the included processes, a child is one level below its parent in the full tree too |
| Forest.RunWalk | process/nodegraph.go:154-166 | the parent stack driven by any preorder walk is never indexed outside, and yields exactly the tree's links |
| GraphContents.EdgeContents | process/nodegraph.go:99-147 | an edge exists just for the ids that got a line; it holds those lines in order, after the seed of the first |
| GraphContents.TooltipConservation | process/nodegraph.go:99-174 | over all edges the tooltip lines are, as a multiset, exactly the lines added |
| GraphContents.ConnectionConservation | process/nodegraph.go:77-175 | tooltip lines number the reported connections of the selected processes plus the nodes of the included tree that are not roots |
| GraphContents.PathClimbs | process/nodegraph.go:94-147 | along any path of edges the rank rises: hosts, processes by ancestors and pid, data |
| GraphContents.ClimbingIsAcyclic | process/nodegraph.go:94-147 | so that no path of any length returns to its start |
| GraphContents.NoAntiparallel | process/nodegraph.go:128-135 | and no two nodes are joined in both directions |
| GraphContents.IncludedIffKnown | process/nodegraph.go:123-126 | every included process is in the table if and only if each process peer of a reported connection is; any other becomes a nil process |
| GraphContents.StalePeerIsNil | process/nodegraph.go:123-126 | a table whose report includes a process that has exited |
| GraphContents.StalePeerMakesCycle | process/nodegraph.go:128-175 | one in which it is the parent, for which the edges would have a cycle |
| GraphContents.GraphIsSound | process/nodegraph.go:77-175 | whenever the reported peers are in the table, the finished edges with the parent edges are acyclic, and each endpoint is a host, a data node or an included process |
| GraphContents.OneParentLine | process/nodegraph.go:152-175 | of the included processes each root gets no parent line, and each other exactly one, on the edge from its parent |
| GraphContents.OneEdgeForBothEnds | process/nodegraph.go:128-135 | the two ends' views of a connection land on one edge with the same line |
| GraphReport.ReportShows | process/nodegraph.go:77-175 | read off pids alone, for every query: exactly which hosts, data nodes, processes and edges the finished report has; the query for all processes shows no data node, and that for one shows only its own hosts and data nodes |
| GraphReport.ConnectionShown | process/nodegraph.go:89-147 | every connection so reported has its line, with both names in place, on its edge |
| GraphReport.LinesShown | process/nodegraph.go:79-175 | over all edges the lines number the connections called for, counted by kind of peer, plus the nodes of the included tree that are not roots |
| GraphReport.PeersKnownIff | process/nodegraph.go:123-126 | no nil process is included if and only if each process that a selected one is connected to is in the table, process 0 aside |
| Nodegraph.Graph.AddConnection | process/nodegraph.go:89-147 | one connection's effect on hosts, datas, included processes and edges is its event's |
| Nodegraph.Graph.AddTable | process/nodegraph.go:77-149 | the range over the selected processes, in any order, adds their events and includes them |
| Nodegraph.Graph.AddParents | process/nodegraph.go:154-175 | the walk with the stack adds just the tree's links |
| Nodegraph.Graph.Nodegraph | process/nodegraph.go:77-175 | it fails on a nil process exactly when a reported peer is not in the table; otherwise the finished graph is the fold of all events, acyclic, with every endpoint a node of the report; in either case it shows just what the table calls for |
| Schema.PopOne | message/protobuf.go:180-200 | going up one level keeps depth, ancestors of the node and qualifiers in step |
| Schema.Enter | message/protobuf.go:206-243 | so does entering a struct |
| Schema.Step | message/protobuf.go:128-273 | and any field at all: depth is the number of ancestors and of qualifiers, and no step goes above a message |
| BuilderText.BalancedIffSlicesAtTop | message/protobuf.go:128-282 | for every field list: no panic and every opener closed, innermost first, if and only if repeated structs occur only at top level and each is followed by another top-level field |
| BuilderText.GoodStep | message/protobuf.go:128-273 | a field keeps the text closable exactly if it keeps to that condition |
| Protobuf.Compiler.Pop | message/protobuf.go:176-202 | the loop that goes up computes the specification's ascent |
| Protobuf.Compiler.QualifiedType | message/protobuf.go:226-230 | the type name is the path from the message to the node |
| Protobuf.Compiler.AddField | message/protobuf.go:129-272 | the loop's body computes one step, or its panic |
| Protobuf.Compiler.Compile | message/protobuf.go:120-282 | the loop computes text, nodes and tree of the fold; it panics, and its text is balanced, just under the conditions read off the list |
| SchemaRoundTrip.EntryOf | message/protobuf.go:165-203 | a flattened member's entry gives back its indentation, name and whether it is repeated |
| SchemaRoundTrip.LoopDescends | message/protobuf.go:176-202 | the flat loop, which closes builders only when a later field asks for it, agrees with the recursive descent over the members |
| SchemaTree.ChildrenFaithful | message/protobuf.go:211-217 | at one level, the children hold the tree of every struct if and only if structs of one type name have equal trees |
| SchemaTree.AfterTree | message/protobuf.go:205-218 | the descent builds below the current node exactly the members' trees |
| SchemaTree.AfterText | message/protobuf.go:222-271 | and writes exactly what a recursive writer would |
| SchemaTree.SharedTypeName | message/protobuf.go:211-217 | two structs of one type name, of which one is lost |
| SchemaPanics.PanicsIff | message/protobuf.go:128-273 | for every field list the loop panics if and only if a message starts with a plain field while a repeated struct of an earlier one has not been closed by a top-level field of its own |
| SchemaPanics.SchemaPanicsIff | message/protobuf.go:250-253 | for every schema it panics if and only if a message starting with a plain member comes after one whose last member holds a repeated struct, with only single-struct messages in between |
| SchemaPanics.PanickingSchema | message/protobuf.go:250-253 | a schema of two messages on which it panics |
| SchemaPanics.UnbalancedSchema | message/protobuf.go:275-282 | a schema of one message whose text does not close what it opens |
| SchemaTheorem.SchemaRoundTrips | message/protobuf.go:128-273 | for every well-formed schema, but those on which the loop panics, given by the condition above, flattening it and running the loop yields exactly the map from message types to their trees, in which a later message of a type replaces an earlier one |
| SchemaKept.TreeHolds | message/protobuf.go:205-218 | the tree of a message shows all its members at every level, and no others, if and only if, at every level, structs of one type name under one parent have the same members |
| SchemaKept.TreesHold | message/protobuf.go:139-156 | the trees of a schema show all of its messages if and only if messages of one type have the same members |
| SchemaKept.SchemaIsKept | message/protobuf.go:128-273 | so for every well-formed schema on which the loop does not panic, flattened and compiled |
| SchemaKept.LostMessage | process/observation.go:47 | two observations of one package with different events, of which one is lost |
| SchemaTheorem.SchemaBuilders | message/protobuf.go:128-282 | for every schema with repeated structs only at top level and never last there is no panic, and the text is that of the recursive writer: builders nest as structs do, and each value is read from its own path |
| SchemaForms.SchemaShows | message/protobuf.go:165-218 | each tree built declares, at every level, the members of its type's last message or struct: repeated ones as slices, the others with their own kind, all with their own type |
| SchemaForms.MembersCopied | message/protobuf.go:244-272 | for every well-formed schema without a panic the text assigns just the plain members, in order, each converted as its declared kind and type, and whether it is repeated, ask for |
| SchemaForms.KeyedEntry | message/protobuf.go:169-171 | a map's entry is cut before its key and keeps name and indentation |
| WatchTable.RelInjective | file/observe.go:152-157 | no two paths have one key |
| WatchTable.SubstituteOne | file/observe_darwin.go:206-213 | moving one more entry extends the substitution |
| WatchTable.SubstitutedKeyed | file/observe_darwin.go:206-213 | prefix substitution keeps every key the root-relative form of its path |
| WatchTable.RenameKeepsCount | file/observe_darwin.go:188-218 | the table keeps its size if and only if no entry elsewhere is at a new path |
| WatchTable.RenameBack | file/observe_darwin.go:188-218 | renaming to where nothing is watched, and back, restores the table |
| WatchTable.NoticeNamesNewPath | file/observe_darwin.go:201-215 | a notice gives a file's new path if and only if the file was renamed itself |
| WatchTable.DirectoryMisnamed | file/observe_darwin.go:206-217 | when a directory is renamed, every notice is wrong |
| WatchTable.MisnamedFile | file/observe_darwin.go:206-217 | a directory with one file for which it is |
| WatchTable.SettlesIff | file/observe_darwin.go:206-213 | no entry is moved below the old path again if and only if the new path is not below the old one and, if it is above it, nothing lies below the old path by the same way down again |
| RenameRange.RunSubstitutes | file/observe_darwin.go:206-217 | then, after any part of the range, whatever it has visited, the table is exactly the substitution in the entries moved so far |
| RenameRange.RunTells | file/observe_darwin.go:206-217 | and each file moved has been reported once, under its old name |
| RenameRange.RunsAgreeIff | file/observe_darwin.go:206-217 | all runs of the range, whichever of the entries added they visit and however often, end with one table if and only if no entry is moved below the old path again |
| FileObserver.Observer.Add | file/observe.go:139-159 | a watched path is returned, a new one entered, a directory the host cannot watch refused |
| FileObserver.Observer.Remove | file/observe.go:162-179 | a directory takes with it exactly the entries below it, with one notice for each other file |
| FileObserver.Observer.Rename | file/observe_darwin.go:188-218 | for a file, the move of its entry; for a directory, the table and notices of a run of the range; for the same path, no change; where no entry lands below the old path again, exactly prefix substitution, with one notice per moved file under its old name; always a table that keeps its keys' form and does not grow |
| FileObserver.Observer.MoveBelow | file/observe_darwin.go:206-217 | the loop, visiting some of the entries that it adds, takes a run of the range, in any order |
| RenamePairing.Callback | file/observe_darwin.go:104-181 | the loop's pairing of rename events is the specification's |
| RenamePairing.WaitsAfterOdd | file/observe_darwin.go:122-129 | an event waits for its partner exactly after an odd number of renames in a row |
| RenamePairing.RenamesArePairs | file/observe_darwin.go:121-135 | two events are one rename if and only if they are neighbours among the events seen and an even number of renames comes right before them |
| RenamePairing.LoneRenameDropped | file/observe_darwin.go:121-154 | every rename event is used up once; the last is dropped if and only if it has no partner and only unseen events follow |
| RenamePairing.FlagsIff | file/observe_darwin.go:113-183 | an event's other flags are handled once if it is seen and is no rename, or a rename that ends the batch after an even number of renames; otherwise never |
| RenamePairing.SettleIff | file/observe_darwin.go:138-153 | a rename is taken for a move out of or into the tree, once, if and only if an even number of renames comes right before it, it has no partner, and it ends the batch or another event seen follows |
| RenamePairing.LoneIsSettled | file/observe_darwin.go:138-153 | directly before the flags of the event that shows that it has no partner |
| RenamePairing.ActionsInOrder | file/observe_darwin.go:104-183 | all actions come in the order of the events |
| RenamePairing.DroppedRename | file/observe_darwin.go:121-129 | a batch whose rename is dropped |
| RenamePairing.AnyTwoPair | file/observe_darwin.go:121-135 | two renames next to each other are taken for one, whatever their paths |
| Netlink.MaskIsAlign | process/netlink_process.go:163-170 | add three and mask, on words of any size, is rounding up to a multiple of four, short of the wrap-around |
| Netlink.AlignIsLeast | process/netlink_query.go:173-175 | the least such multiple |
| Netlink.NlAttr | process/netlink_process.go:248-256 | the scan's outcome on any buffer: payload, absence, endless loop, read past the end, or slice panic |
| Netlink.ScanRoundTrip | process/netlink_process.go:248-256 | encoding any well-formed attributes and scanning gives the payload of the first with the key, or none, whatever follows in the buffer |
| Netlink.OutcomeIff | process/netlink_process.go:248-256 | on every buffer each outcome occurs if and only if skipping attributes of other keys and nonzero length leads to a place that calls for it: the end, half a header, the key with a length below four or past the buffer, another key with length zero, or an attribute with the key, whose payload it is |
| PacketFilter.ClosedRuns | process/netlink_process.go:355-400 | any program whose jumps stay inside it ends every run, on every packet, with a verdict |
| PacketFilter.ProgramClosed | process/netlink_process.go:355-400 | this program is such a one |
| PacketFilter.FilterAsWritten | process/netlink_process.go:355-400 | its verdict on every packet; any program with the same live part gives the same one |
| PacketFilter.WhenAsIntended | process/netlink_process.go:366-399 | it does what its comments ask if and only if the packet is of the listed kinds |
| PacketFilter.UserChangeRejected | process/netlink_process.go:376-399 | a user id change that should be accepted and is rejected |
| PacketFilter.SkippingSevenIsIntended | process/netlink_process.go:367 | with skips one shorter it does so on every packet |
| Accounting.ThresholdSelects | process/measure.go:80-91 | the threshold taken from the sorted list selects exactly the processes that at most top reach, or, if few are active, those that used more than some other |
| Accounting.RankAbove | process/measure.go:82-83 | a value exceeds the one at the threshold's index if and only if at most top values reach it |
| Accounting.SelectedAtMostTop | process/measure.go:80-91 | at most top processes are selected |
| Accounting.SelectedUsedMore | process/measure.go:87-91 | each used strictly more than every active process not selected |
| Accounting.SelectedIsTop | process/measure.go:80-91 | when the active processes that reach some value are just top of them, exactly these are selected |
| Accounting.SelectedGainedMore | process/measure.go:52-91 | over the two tables: a process selected gained more CPU time, a new one all of its own, than any active one that was not |
| Accounting.CpuAddsUp | process/measure.go:52-75 | the CPU time reported and the time the survivors had used before make the time all have used by now, if and only if no survivor's time went down |
| Accounting.SumIsTotal | process/measure.go:67-75 | the total accumulated in any order is the sum over the active processes |
| ProcessMonitor.Monitor.Measure | process/measure.go:40-139 | statistics, report, carried state and which command lines are cached, after every measurement of every run |
| ProcessMonitor.IdleHost | process/measure.go:82-86 | two equal tables in a row make the measurement fail |
| ProcessMonitor.Monitor.Compare | process/measure.go:52-77 | the range over the new table yields the active processes with their CPU, the new and the missing ones |
| ProcessMonitor.Monitor.Carry | process/measure.go:97-109 | which measurements of the last report are reported again |
| ProcessMonitor.StatsAddUp | process/measure.go:112-118 | the count is the previous one plus execed less exited |
| ProcessMonitor.ReportDistinct | process/measure.go:93-109 | no pid is reported twice, the carried ones included |
| ProcessMonitor.ReportedIff | process/measure.go:87-109 | a measurement is in the report if and only if it is that of a selected process as it is now, or was in the last report and its process, not selected, gained CPU time again |
| ProcessMonitor.ReportedUsedCpu | process/measure.go:87-109 | every reported process is alive and used CPU in the interval |
| Gather.SendNeverBlocks | message/gather.go:24-34 | in every interleaving the channel is open and has room for each goroutine with a response |
| Gather.ReturnsAll | message/gather.go:36-50 | Gather returns only after all requests finished, with the responses of distinct ones, and of all without a timeout |
| Gather.ReturnNeedsAnswers | message/gather.go:36-50 | in every reachable state, with or without a timeout, steps other than answers and the timer lead to the return if and only if every request has answered |
| Gather.ReturnsEverything | message/gather.go:42-50 | without a timeout the result is a permutation of all responses |
| Gather.WaitsPastTimeout | message/gather.go:14-22 | a state past the timeout in which only the request's answer can come next |
| Gather.NoDeadlock | message/gather.go:26-48 | no reachable state before the return is stuck |
| Gather.RunLength | message/gather.go:26-48 | no run is longer than a bound fixed at the start |
| Handshake.ReturnedAtMostServed | serve/prometheus.go:99-102 | for any number of overlapping calls, those that returned never outnumber those served, and none is served twice |
| Handshake.WokenUnserved | serve/measure.go:51-74 | a call that is woken was served in full if and only if its channel is out of the loop's hands and of the mailbox |
| Handshake.LoneCallServed | serve/prometheus.go:99-102 | a call that returns while no other waits was served in full |
| Handshake.OneAtATimeIsServed | serve/prometheus.go:99-102 | with at most one call in flight at any time, every call that has returned was served in full |
| Handshake.OverlapReturnsUnserved | serve/prometheus.go:67-72 | a run of two overlapping calls in which one has returned with a metric still due to it |
| Handshake.NoDeadlock | serve/measure.go:34-75 | while a call is in flight, a step towards its return can be taken |
| Handshake.StepsDecrease | serve/measure.go:34-75 | and each such step uses up a budget |
| Delivery.ExactlyOnce | message/encode.go:92-117 | over every run, whatever fails, each message is logged once, and each not taken by Loki is in a file, cached, or lost with a failed encoding; in receipt order if none failed |
| Delivery.CloseWritesAll | message/encode.go:133-152 | after Close nothing is cached, and with successful encodings the files hold all that Loki did not take |
| Delivery.SurvivesUnlessStampRepeats | message/encode.go:154-179 | a rotated file can be found afterwards if and only if no later rotation carries the same timestamp |
| Delivery.SpacedRotationsSurvive | message/flag.go:32-54 | for every duration given to the flag, negative ones included: rotations at least the interval apart never replace a file, and without a positive interval there is no rotation but that of Close |
| Delivery.CloseReplacesLastFile | message/encode.go:133-135 | the rotation of Close replaces the file before it if and only if their timestamps agree |
| Delivery.CloseWithinMinute | message/encode.go:133-135 | a run with a rotation each minute and a Close half a minute after the last one, which replaces its file |
| Delivery.RunNamed | message/encode.go:167-191 | over every run, failed calls or not, standard output has a name and no two names lead to one file |
| Delivery.StampsAgreeIff | message/flag.go:41-51 | two stamps are the same if and only if the days are and, as the interval's length asks, the hours, minutes and seconds |
| Routing.LokiIff | message/encode.go:90-106 | Loki is in use if and only if it was found ready at the start or by a tick and no push has failed since |
| Routing.LokiTakes | message/encode.go:96-102 | an event's messages are taken by Loki if and only if they are observations, their push succeeds, and Loki is in use |
| Routing.ArraysHoldSeveral | message/encode.go:139-146 | a message by itself is never written as an array |
| Routing.WrittenWhen | message/encode.go:121-130 | without an interval nothing is ever cached, and with one nothing is written before a rotation |
| FileValues.OneValueIff | message/encode.go:138-191 | while rotating, every file holds at most one JSON value if and only if no rotation writes while the value of an earlier one is in a file not switched since |
| FileValues.OneValueAFile | message/encode.go:138-191 | so it is when every rotation succeeds, and the file being written is then empty after each |
| FileValues.FailedSwitchWritesTwice | message/encode.go:156-185 | after a rotation that writes and then fails in Stat, FdPath, Rename or Create, the next one adds a second value to the same file, from any state |
| Encoder.MessageEncoder.constructor | message/encode.go:39-67 | a regular .json destination always rotates, a destination that is not a regular file never does |
| Encoder.MessageEncoder.FileEncode | message/encode.go:121-130 | the loop over a message list streams or caches as specified |
| Encoder.MessageEncoder.Rotate | message/encode.go:138-191 | every way through Rotate has the specified effect on cache, files and names |
| Encoder.MessageEncoder.Encode | message/encode.go:82-118 | the event loop up to Close computes the run; nothing stays cached, and with successful encodings all is written in order |
| LogWindow.LogParser.Seen | logs/observe.go:157-171 | the comparison with the three slots decides whether the record repeats one of the last three sent |
| LogWindow.LogParser.Shift | logs/observe.go:172-175 | the window moves by one, in place |
| LogWindow.LogParser.Queue | logs/observe.go:144-191 | the slots always hold the last three records sent, newest first |
| LogWindow.LogParser.Parse | logs/observe.go:118-141 | what is sent is the filtered stream of the records that pass |
| LogWindow.SentSpread | logs/observe.go:157-175 | no record sent is the same as one of the three sent before it |
| LogWindow.SentOrRepeats | logs/observe.go:157-175 | a record is dropped if and only if it is the same as one of the last three sent; otherwise it is sent next |
| LogWindow.UnchangedIffSpread | logs/observe.go:157-175 | the filter leaves alone exactly the streams in which no record repeats one of the three before it |
| LogWindow.Idempotent | logs/observe.go:157-175 | filtering a filtered stream changes nothing |
| LogWindow.RepeatsSendNothing | logs/observe.go:157-171 | however long the last three records go on being repeated, nothing more is sent |
| LogWindow.SameStreams | logs/observe.go:163-166 | timestamps and whole matches decide neither how many records are sent nor what else is in them |
| LogLines.DroppedIff | logs/observe.go:157-175 | after any stream, a record is dropped if and only if one of the last three sent becomes it when its whole match and its timestamp are put in |
| LogLines.LineIgnored | logs/observe.go:119-128 | a line that does not match, or on Linux has no level to report, changes nothing |
| LogLines.LineHeard | logs/observe.go:119-175 | after any other line one of the last three records sent is its own, but for the whole match and the timestamp |
| LogLines.NormalAt | logs/observe.go:130-131 | on Linux the first two slashes of a timestamp become dashes, the first T a space, and all else stays |

## Left out

- FileObserver.Observer.Rename: takes a new path that is not strictly above the root, since only paths under the root are observed.
- Handshake.StepsDecrease: says that no run goes on for ever without samples; that the scheduler takes the steps is left open.
- Delivery.SurvivesUnlessStampRepeats: is about the files that this process creates; a file of that name from an earlier run is replaced too.
- FileValues.OneValueIff: a failed write is taken to write nothing.
- Netlink.NlAttr: the loop over the parsed messages and the error message in front of it; a zero length is reported as an endless loop.
- Nodegraph.Graph.Nodegraph: takes the selected processes and the trees' builder as parameters; lines are kept as values, not as text.
- Protobuf.Compiler.Compile: the text is a sequence of tokens without its white space; nodes are numbered instead of linked by pointers, and capitalization and the reflection on field values are parameters.
- Allocator.Parser.ReadFile: starts from a line's columns; the regular expressions, the zone of an address and the differences between hosts are in how a line's kind is chosen.
- PacketFilter.FilterAsWritten: loads see abstract words; byte order and the layout of the headers are constants.
- LogWindow.LogParser.Parse: starts from the matches of the regular expression; levels are a flag.
- The trees of gocore (Tree, Subdir, Family, BuildTree) are not part of this model: they appear as contracts, a finite forest given by the parents and a path below a directory.
- The choice of the processes that a node graph query selects (process/nodegraph.go:40-75), and its clusters and rendering.
- The text of the proto messages that buildMessages writes from the tree.
- watchDir's walk, the other flags of a file event, and the event loops of inotify, FSEvents, kqueue and ReadDirectoryChanges.
- The loop of nlUnixPeerInode over attributes, which scans as nlAttr does.
- Cancellation by context in Measure and in the encoder's other goroutines.
- Encoding to JSON, Loki streams and Prometheus metrics, and all network calls: each is a step that succeeds or fails.
- The readers of system, process, network and filesystem metrics on each platform.
- Flags, logging, TLS, HTTP handlers, websockets and Graphviz.
