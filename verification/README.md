# SocketTrail: a verified model

SocketTrail shows which process talks to which host, and records that traffic. This project models the
parts of it that decide something: who owns a connection, which packets of a recording belong to the
selected processes, which server name a handshake announces, and how files, names and dates are read and
written. Each part is a specification on values, a class or a loop that computes it the way the program
does, and theorems about the specification over all inputs, all runs or all interleavings.

What depends on the outside is an input: socket snapshots, process lists, packets, clock readings, the
order in which a hash map hands out its entries (the victims of an eviction, the addresses a trim drops),
what the operating system answers to a start, and the cryptographic primitives.

How the parts fit together:

- `Net`, `Procs`, `Wrappers`, `Bytes`, `Bits`, `Oldest`: shared vocabulary.
- `Rows`, `UdpSockets`, `History`: the connection history as a state machine; `StoreTable` is the mutable
  store. `SocketMatch` and `Snapshots` say which socket a row belongs to and which rows a snapshot shows.
  `Generations`, `Ownership`, `OwnerStart`, `RowStart`, `TcpClaim`, `Eviction`, `Traffic` hold what every run
  keeps, and exactly what it does not.
- `Names`, `NameTable`: names of addresses from DNS answers, against the unbounded log of everything said.
- `Recording`, `RecordingRun`, `DumpMeta`, `DumpFile`: what a recording remembers and which frames its file
  keeps. `Group`, `Tracking`: the processes it follows. `RecordingProtocol`: starting and finishing with the
  lock released. `Drain`, `CaptureQueue`: the accounting of captured packets. `RecordedHistory`
  joins a recording with the history it looks at, `FinishedRecording` protocol, accounting and file;
  `CleanRecording` is one run that ends filtered.
- `Reassembly`: one reassembly machine with its theorem on order, used twice. `ClientHello`, `Hello`:
  the message. `SparseBuffer`, `Tls`, `LateBase`, `TlsFlow`, `TlsAssembler`: over TCP. `QuicInt`, `PacketNumber`,
  `QuicPacket`, `QuicFrames`, `QuicFlow`, `QuicAssembler`, `QuicTable`, `QuicDone`: over QUIC Initial packets.
- `Pcapng`, `Annotate`, `Filter`, `PassAgain`, `PcapngReader`, `EtwWriter`, `EtwWorker`, `Pipeline`: files of packets.
  `Layout` lays such a file out field by field, `Rewriting` says of every block of it what a recording makes of it.
- `DnsName`, `DnsMessage`: DNS answers. `DnsAnswers` tells what they say without following them record by record.
  `Calendar`: dates.

## Findings

Where the program does not meet what one might expect of it, the model keeps the program's behaviour and
says exactly when the property holds.

- For UDP the start time of a row's owner can be replaced while its pid stays and no doubt is raised. A live
  socket takes another start when a snapshot lacks its pid and the process list shows the remembered pid with
  another start (`Generations.StartStaysIff`); its row takes the socket's start with the next poll that looks
  at it or the next packet (`RowStart.PollKeepsStartIff`, `RowStart.MatchOfEntry`,
  `RowStart.PacketKeepsStartIff`; a reachable run in `OwnerStart.StartIsReplaced`). From the first owned
  sighting on the fold of a recording raises the doubt itself (`RecordedHistory.LivingFoldIff`); a start
  replaced before that leaves no trace in a filtered file.
- A process-only recording looks at a tuple from the first sighting on that is owned; what it saw before makes
  no difference (`RecordingRun.KeptIff`). For a row that lives on, the sightings before show no other owner
  (`RecordedHistory.SkippedShowNoOther`). Across a clearing of the history or an eviction they may: then the
  frames of the first owner of a tuple stay in the file of the second one
  (`RecordedHistory.SharedTupleIsKept`, a reachable run).
- A TCP row known from packets alone belongs without doubt to whatever process a later poll shows on its
  tuple, even after silence closed it (`TcpClaim.PollClaimsIff`; a reachable run in
  `TcpClaim.SilentRowIsClaimed`). A row that a poll had shown before it closed is put in doubt by a socket that
  is not ending.
- The history exceeds its ceiling of 20 000 rows by one exactly when that many rows are live
  (`Eviction.CeilingExceededIff`; a reachable run in `Eviction.CeilingIsExceeded`).
- A reader that meets a block length out of range throws its buffer away, so then it matters how the stream
  was split, unless the bytes behind the split leave no trace anyway (`PcapngReader.SplitAgreesIff`,
  `PcapngReader.BadLengthSplitsDiffer`).
- A comment can push a block above the size readers accept: a second pass refuses what a first one wrote
  exactly when a section or a kept packet with a label left no room (`PassAgain.SecondPassIff`; a failing file
  in `PassAgain.LargestSectionFails` and `PassAgain.LargestSection`).
- A compressed domain name of 127 labels is refused, since pointers count against the limit of 128 steps
  (`DnsName.DecodeOfCompressed`, `DnsName.LongestCompressedFails`; a failing message in
  `DnsName.LongNameFails`).
- Once a QUIC flow is done, the number that steers decoding no longer advances. A packet then keeps the flow
  from expiring exactly when its number is recovered from there, in the window or at the edge of the number
  space (`QuicDone.DonePacket`, given that decryption under another number fails); with others the flow expires
  however often they come (`QuicDone.DoneExpires`), and a message sent again has its name reported a second
  time (`QuicDone.NameReportedAgain`).
- Enriching names twice can differ from once in one corner, a PTR name that reads like a fixed label in the
  other language (`Rows.EnrichedTwiceIff`).
- Waiting for accepted packets is only sound with one sender (`Drain.TwoSendersMayMiss`); there is one.
- Outside the window around the expected one, a packet number is recovered only at the two edges of the
  number space (`PacketNumber.RecoveredIff`).

## Model

| member | source | states |
|---|---|---|
| `Rows.AttributeKeeps` | src/state.rs:358-384 | attributing a UDP row to its socket never takes an owner from it other than into doubt, never lifts doubt, and never binds it to another socket |
| `Rows.SocketKeeps` | src/state.rs:484-516 | the same for a row whose socket a poll shows, TCP and UDP |
| `Rows.AbsenceKeeps` | src/state.rs:517-549 | the same for a row whose socket a poll does not show |
| `Rows.PacketKeeps` | src/state.rs:631-653 | the same for a row a packet belongs to |
| `Rows.AttributedIff` | src/state.rs:358-384 | exactly when a UDP row comes into doubt: several sockets could carry it, the one it was bound to no longer does, or the one that does is another or younger than the row; else it is bound to that one and takes its process |
| `Rows.SocketOnRow` | src/state.rs:484-516 | what a shown socket does to its TCP row: state, time and cookie, and doubt and loss of its name exactly when process, start time or cookie is another, the owner is in doubt, or an ended connection is there again |
| `Rows.PacketOnRow` | src/state.rs:631-653 | a name in a packet becomes the name of its row; bytes count on their side; the row is seen now and reopened as UDP or after silence; a TCP owner is not touched |
| `Rows.ClosedKeepsOwner` | src/state.rs:517-549 | a closed row that is not shown keeps its owner and all else; no later socket on its port takes it over |
| `Rows.StaysOpenIff` | src/state.rs:517-549 | exactly which open rows a poll that does not show them leaves open |
| `Rows.NamePriority` | src/state.rs:657-700 | a name from SNI stays, a name from DNS stays and wins over PTR and label, no name is lost |
| `Rows.EnrichedTwiceIff` | src/state.rs:657-700 | enriching again with the same knowledge changes nothing, except exactly when a PTR name was just taken that reads like the label in the other language |
| `Rows.NameKeeps` | src/state.rs:659-700 | a change of names leaves ownership, binding and beginning alone |
| `UdpSockets.Position` | src/state.rs:285-299 | finds the first old socket that is the same, or tells that none is |
| `Generations.RenewedContinues` | src/state.rs:300-312 | a socket seen again keeps generation and beginning, keeps a known owner unless it is doubted, keeps doubt |
| `Generations.RefreshSound` | src/state.rs:277-329 | after a poll all sockets have distinct generations up to the counter, and each is an old one seen again or has a fresh generation |
| `Generations.GoneStaysGone` | src/state.rs:277-329 | a generation that left the table does not come back with a poll |
| `Generations.StartStaysIff` | src/state.rs:309-311 | a socket keeps the start time of its owner exactly unless the poll lacks its pid and the process list shows that pid with another start |
| `OwnerStart.StartIsReplaced` | src/state.rs:300-312 | a run of two polls in which a row keeps its pid, is not in doubt, and its start time changes |
| `RowStart.PollKeepsStartIff` | src/state.rs:300-384 | in a reachable state, what a poll does to an undisputed row whose owner has a start time: doubt exactly when it is shown while the match is not its socket; else the start time is replaced exactly when the poll looks at the row and its socket, pid known, has another start |
| `RowStart.MatchOfEntry` | src/state.rs:277-329 | the match of a bound row after a snapshot is an old socket shown again by an entry: pid of the entry or else remembered, start of that pid in the process list or else remembered |
| `RowStart.PacketKeepsStartIff` | src/state.rs:358-384 | the same across a packet: doubt exactly when the match is not the socket of the row; else the start time is replaced exactly when that socket, pid known, has another start |
| `TcpClaim.OwnerIff` | src/state.rs:478-515 | the entries of a snapshot for one TCP tuple leave its row undisputed exactly when they and the row tell one pid, one start, one cookie, no doubt, and nothing that ended opens again; the owner is then the pid any of them tells |
| `TcpClaim.PollClaimsIff` | src/state.rs:453-549 | exactly when a poll leaves a TCP row undisputed and exactly which process it then belongs to, shown or not; a closed row known from packets alone can be claimed |
| `TcpClaim.SilentRowIsClaimed` | src/state.rs:494-544 | a run of a packet, a minute of silence and a poll after which the bytes of the packet belong without doubt to the process of a later socket |
| `Ownership.OnSocketGood` | src/state.rs:478-515 | after a poll shows its socket, a row has the owner its live socket claims and is no older than that socket |
| `Ownership.StepGood` | src/state.rs:453-700 | every step of the history keeps the invariant: sockets apart, generations claimed by one pid each, rows owned as claimed, and every row that lives on keeps its owner or falls into doubt |
| `Ownership.RunGood` | src/state.rs:358-550 | the invariant holds in every reachable state, with one assignment of generations to pids for the whole run |
| `Ownership.AttributedOnce` | src/state.rs:277-384 | over a whole run no two rows bound to one generation ever show different pids |
| `Ownership.LiveSockets` | src/state.rs:277-384 | in every reachable state live sockets have distinct generations up to the counter, and a row bound to one has been seen first no earlier than the socket |
| `Ownership.NeverReturns` | src/state.rs:313-329 | over a whole run a generation that left the table never returns |
| `Ownership.OwnerHistory` | src/state.rs:358-550 | over its whole life a row has no owner, then one pid, then none for good once in doubt; doubt is absorbing and empties pid, start time and name; for TCP the start time is as firm as the pid |
| `Eviction.Policy` | src/state.rs:386-414 | the survivors fit under the ceiling, a live row goes only when no closed one stays, and of two rows of a kind the one seen longer ago goes |
| `Eviction.EvictionLeaves` | src/state.rs:386-414 | how many rows an eviction leaves, in terms of how many there are and how many are closed: all, nine tenths, or those not closed |
| `Eviction.CeilingExceededIff` | src/state.rs:386-420 | entering a row exceeds the ceiling exactly when as many rows are live as the ceiling has |
| `Eviction.CeilingIsExceeded` | src/state.rs:386-420 | a run, with every eviction by the policy, that ends with 20 001 rows |
| `Eviction.HistoryBounded` | src/state.rs:386-450 | in every run the history holds at most 20 001 rows |
| `Traffic.StepConserves` | src/state.rs:604-655 | a step adds to the rows present and evicted exactly what it applied |
| `Traffic.Conserved` | src/state.rs:386-655 | since the last clearing, packets and bytes applied equal what present rows count plus what evicted rows counted |
| `Traffic.ReplySharesTheRowIff` | src/state.rs:612-630 | a packet and its reply count in one row on opposite sides exactly when one of the two ends is local |
| `StoreTable.Store.constructor` | src/state.rs:222-234 | a new store is the empty history |
| `StoreTable.Store.SetLocalIps` | src/state.rs:268-275 | takes the local addresses that are neither unspecified nor multicast |
| `StoreTable.Store.FindSame` | src/state.rs:286-297 | the search loop finds the position the specification names |
| `StoreTable.Store.RefreshUdpSockets` | src/state.rs:277-329 | the in-place pass over a snapshot leaves the sockets and the counter of the specification |
| `SocketMatch.MatchIff` | src/state.rs:331-356 | a socket is told exactly when the local address is one of this host and one socket alone at the port takes the row: bound to the address or to all of its family, unconnected or connected to the remote end, and not in doubt; none is told exactly when none takes it |
| `SocketMatch.NewGenerationIff` | src/state.rs:282-326 | an entry makes a new generation exactly when it differs from every socket left at its port in an end, in the cookie, or in a known process; otherwise it is one of them again, with its generation and beginning |
| `SocketMatch.SocketsAreShown` | src/state.rs:277-329 | after a snapshot the sockets of a port are its entries there, in order, each with the process told and with doubt that stays |
| `SocketMatch.PacketGetsPid` | src/state.rs:277-384 | over poll and packet: a packet that makes a row gives it the process the snapshot told of the only socket that takes the tuple |
| `Snapshots.EntryOnRows` | src/state.rs:466-516 | an entry makes or updates the row of its tuple and no other, unless it has no remote port or is a last state without a row |
| `Snapshots.HostAddresses` | src/state.rs:453-466 | the addresses of this host after a poll: those known and those bound, without unspecified and multicast ones |
| `Snapshots.ShownIff` | src/state.rs:466-516 | a tuple counts as shown exactly when an entry told of its row |
| `Snapshots.PollOnRow` | src/state.rs:517-549 | rows not shown, and only these, are treated as absent: a TCP row is closed unless only packets showed it within the last minute |
| `StoreTable.Store.FindOwner` | src/state.rs:331-356 | the loop over the sockets of a port gives the match that SocketMatch.MatchIff characterises |
| `StoreTable.Store.PickLongestAgo` | src/state.rs:398-412 | picks rows of the given ones such that no other was seen longer ago |
| `StoreTable.Store.Evict` | src/state.rs:387-414 | removes victims of the two rounds and nothing else |
| `StoreTable.Store.Entry` | src/state.rs:416-450 | makes sure there is a row, evicting by the policy first |
| `StoreTable.Store.ApplySockets` | src/state.rs:453-550 | a poll, as the loops apply it to the maps, is the poll step of the history with victims picked by the policy |
| `StoreTable.Store.ShowSocket` | src/state.rs:462-515 | one entry of the snapshot |
| `StoreTable.Store.SweepAbsent` | src/state.rs:520-549 | the second loop treats exactly the rows not shown, each as the specification says |
| `StoreTable.Store.ApplyPacket` | src/state.rs:605-655 | a packet, as applied to the maps, is the arrival step, after the names of its DNS answers were remembered in order |
| `StoreTable.Store.EnrichNames` | src/state.rs:659-700 | the loop gives every row the name its SNI, DNS at the moment of its turn, PTR and label call for, and changes nothing else |
| `StoreTable.Store.ApplyLookups` | src/main.rs:954-1005 | PTR answers reach the rows of their address and only names change |
| `StoreTable.Store.RememberNameFor` | src/state.rs:579-602 | the update of the names map is the one of the table specification, with a trim that drops what it may |
| `StoreTable.Store.RestoreDns` | src/state.rs:552-572 | an entry is taken in exactly when something of it is live and the table has room |
| `StoreTable.Store.LoadNames` | src/main.rs:393-402 | saved entries under parsable addresses are taken in, each as it reads at its turn, and all that are alive unless the table gets full |
| `StoreTable.LoadedWhole` | src/main.rs:393-402 | what a program saved, if it fits, comes back as the whole table read back |
| `StoreTable.Store.Clear` | src/main.rs:1957-1962 | clearing forgets the rows and the packet count, not sockets or names |
| `Names.RememberedSummary` | src/state.rs:589-601 | remembering a name keeps the entry a summary of the unbounded log: what it holds is true, what it lacks is dead or covered by the mark |
| `Names.UniqueIff` | src/state.rs:39-48 | a name is given exactly when it is the only live one in the whole log and no mark is set |
| `Names.MarkedOnlyBeyondEight` | src/state.rs:597-601 | the mark moves only when more than eight names are live |
| `Names.RestoredSummary` | src/state.rs:552-572 | reading an entry back keeps it a summary of the log |
| `Names.RestoredAnswers` | src/state.rs:552-572 | any saved entry, once read back, answers at every later instant as it would have, except with nothing while a name that did not fit is live |
| `Names.RestoredSame` | src/state.rs:552-572 | an entry of the program itself answers the same after saving and reading back |
| `NameTable.Trim` | src/state.rs:239-254 | drops as many addresses out of use as exceed nine tenths of the limit |
| `NameTable.TrimLeaves` | src/state.rs:236-254 | what stays is nine tenths of the limit or only addresses in use, and those all stay |
| `NameTable.LearnedBounded` | src/state.rs:579-602 | the table stays within MAX_NAMES, addresses of the history keep their names, and a new address is turned away exactly when the table is full of such |
| `NameTable.NamesAreSound` | src/state.rs:39-48 | over any run of answers, trims and reloads with a clock that does not go back, a name is given exactly when it is the only live one ever told for the retained address and no mark is set |
| `NameTable.NamesAreExact` | src/state.rs:39-48 | while at most eight names of an address are live at a time the answer is exact |
| `NameTable.ReloadChangesNothing` | src/state.rs:552-572 | saving and reading back the whole table changes no answer, now or later |
| `Recording.FoldedIff` | src/state.rs:152-171 | a recorded row is in doubt exactly when some observation was, or some observation does not continue the one before; otherwise it is as last seen |
| `Recording.OwnedFoldIff` | src/state.rs:152-171 | a row owned at first ends up owned exactly when one recorded process owned it in every observation, none in doubt, never replaced other than by the same UDP socket |
| `Recording.LivingRowDisputedIff` | src/state.rs:155-171 | for a row that lives on, folding raises doubt exactly when the history does or the start time of a UDP owner was replaced |
| `RecordingRun.FoldsMatch` | src/main.rs:1855-1868 | in every run the remembered row is the fold of its sightings from the first one on that was taken in, and one of a process-only recording was owned at that sighting |
| `RecordingRun.HistoryIsCounted` | src/main.rs:1766-1779 | of everything seen of a tuple exactly the sightings from the first one on that is taken in count; those before leave no trace |
| `RecordingRun.AfterKeeps` | src/main.rs:1855-1868 | remembered rows are never lost, at most 40 000, and the limit flag stays |
| `RecordingRun.LimitReachedIff` | src/main.rs:1855-1868 | the limit is reported exactly when something was left out: a process beyond the limit, or a row that would have been taken in with 40 000 others remembered |
| `RecordingRun.SeenIsRemembered` | src/main.rs:1855-1868 | without a reported limit every recent row seen with a recorded process, or at all when all traffic is recorded, is remembered |
| `RecordingRun.PlanRow` | src/main.rs:1766-1798 | the plan has a row for exactly the tuples of which a sighting was taken in, with the ownership and label of the sightings from that one on |
| `RecordingRun.RowKeptIff` | src/main.rs:1766-1868 | a tuple is kept exactly when its sightings are some of which none was taken in and then some that one recorded process owned throughout, in no doubt, never replaced other than by the same UDP socket |
| `RecordingRun.KeptIff` | src/main.rs:1766-1868 | a process-only recording keeps a frame exactly when its tuple, as sent or else as received, was owned by one recorded process from the first sighting on that was taken in |
| `RecordingRun.DoubtDropsAll` | src/main.rs:1780-1798 | from the first sighting on that was taken in, doubt, a change of owner or a replaced row drops every packet of the tuple and leaves its label without process |
| `RecordedHistory.RowsProper` | src/main.rs:1839-1877 | in every reachable state of the history a look at a row sees it, and a disputed row has no owner |
| `RecordedHistory.SkippedShowNoOther` | src/main.rs:1855-1877 | over a run of the history and of looks at it, while its row lives on no sighting of a tuple shows another owner than a later one that is not in doubt |
| `RecordedHistory.LivingFoldIff` | src/state.rs:152-171 | over a run, what is remembered of a row that lives on is in doubt exactly when the history is in the end or, for UDP, a start time was replaced |
| `RecordedHistory.LivingRowKeptIff` | src/main.rs:1766-1868 | the traffic of a row that lived on and was seen to the end is kept exactly when a recorded process owns the row in the end and, for UDP, the start time stayed from the first sighting on that was taken in |
| `RecordedHistory.SharedTupleIsKept` | src/main.rs:1855-1868 | a run with a clearing in which every frame of a tuple is kept although its first owner, seen and not in doubt, is not recorded |
| `DumpFile.OnlyOwnedRemain` | src/main.rs:1708-1762 | end to end on bytes: the file stays untouched and is reported unfiltered, or holds exactly the frames whose tuple one recorded process owned from the first sighting on that was taken in, in order, and then the knowledge was complete |
| `FinishedRecording.NothingLost` | src/main.rs:1575-1590 | if the wait succeeded and no loss was added since the start was asked for, every packet counted before the target was applied or was lost before that |
| `FinishedRecording.CompleteIff` | src/main.rs:1591-1660 | what a finish knows at its end: path and everything seen since the last start, and it is complete exactly when the wait succeeded, the capture stopped in order, the loss counter is what it was when the start was asked for, and no limit was hit |
| `FinishedRecording.FilteredIff` | src/main.rs:1608-1762 | from start to file, in every interleaving: a process-only recording is filtered exactly when it is complete in that sense and its file is one a pass goes through; then the file holds exactly the frames whose tuple one recorded process owned from the first sighting since the start that was taken in; otherwise it is untouched and reported unfiltered |
| `FinishedRecording.FinishedFile` | src/main.rs:1608-1762 | the bytes of a finished recording of either kind: those of the rewriting of its file by what was seen since the start, or the untouched ones exactly when a process-only recording is not complete |
| `CleanRecording.CleanRunIsFiltered` | src/main.rs:1608-1762 | a reachable run in which nothing goes wrong ends filtered, with the frame of the recorded process in the file, signed and counted |
| `FinishedRecording.LivingRowInFile` | src/main.rs:1608-1868 | when what was seen is what the history showed, the packets of a row that lived on from before its first sighting to the end are kept exactly when a recorded process owns the row in the end and, for UDP, the start time stayed from the first sighting on that was taken in |
| `DumpMeta.DumpMeta.constructor` | src/main.rs:1552-1563 | a recording starts with the processes of the group and no rows |
| `DumpMeta.DumpMeta.Remember` | src/main.rs:1855-1868 | the update in place is the one of the specification |
| `DumpMeta.DumpMeta.RememberAll` | src/main.rs:1870-1877 | every row of the history is seen exactly once |
| `DumpMeta.DumpMeta.PlanFor` | src/main.rs:1766-1798 | the loops make the plan of the specification |
| `DumpMeta.DumpMeta.BroughtUpToDate` | src/main.rs:1768-1779 | remembered rows are folded with the history at the end |
| `DumpMeta.DumpMeta.Track` | src/main.rs:1881-1908 | a process list takes the group to what the specification allows, marks life when a member runs, and changes no rows |
| `DumpMeta.DumpMeta.Gather` | src/main.rs:1898-1907 | the loop admits members until the limit |
| `Group.ChildrenOf` | src/procs/mod.rs:52-55 | the children map holds exactly the parent relation of the list |
| `Group.DescendantsFrom` | src/procs/mod.rs:51-70 | on any parent relation, cyclic too, the result has exactly the processes reachable from the roots, each once, the roots first |
| `Group.ClosedHoldsReachable` | src/procs/mod.rs:59-68 | a set closed under children that holds the roots holds everything reachable |
| `Tracking.GatheredIs` | src/main.rs:1898-1907 | all candidates join if they fit; the flag is set exactly when they do not, and then the group is full |
| `Tracking.JoinsByDescent` | src/main.rs:1881-1908 | whoever joins runs and descends, in that very list, from a recorded process that runs; a reused pid alone never joins |
| `Tracking.TracksBounded` | src/main.rs:1881-1908 | the group is bounded, loses nobody, takes every running descendant unless the limit is hit, and the limit flag stays |
| `Tracking.EveryoneIsHeir` | src/main.rs:1881-1908 | over any sequence of process lists every recorded process descends step by step from the first ones |
| `Tracking.GroupBounded` | src/main.rs:1881-1908 | the bound, growth and the sticky flag over whole runs |
| `RecordingProtocol.App.TakeForStart` | src/main.rs:1484-1535 | a start is refused without a trace or takes the recorder |
| `RecordingProtocol.App.ReturnStarted` | src/main.rs:1545-1569 | the recorder comes back, to Idle on failure, to Recording with metadata on success |
| `RecordingProtocol.App.TakeForFinish` | src/main.rs:1591-1619 | a finish is refused without a trace or takes recorder and metadata |
| `RecordingProtocol.App.ReturnFinished` | src/main.rs:1698-1705 | the recorder comes back and the phase is Idle |
| `RecordingProtocol.App.Poll` | src/main.rs:1870-1877 | a poll changes only metadata that is there |
| `RecordingProtocol.OneRecorder` | src/main.rs:1484-1706 | in every interleaving metadata exists exactly while recording, at most one task is under way, and the running recorder is in one place |
| `RecordingProtocol.FinishedOnce` | src/main.rs:1484-1706 | in every interleaving each successful start is finished at most once, in order, with its own path |
| `RecordingProtocol.RefusedChangesNothing` | src/main.rs:1485-1505 | an operation is refused exactly when nothing changes |
| `RecordingProtocol.FinishHasFileAndMetadata` | src/main.rs:1663-1688 | a finish always has a file and metadata, of the recording started last |
| `RecordingProtocol.MetadataIsHistory` | src/main.rs:1545-1627 | in every interleaving the metadata of a finish is that of the last successful start, its request and its time, after everything seen since then, with the path and the loss counter of that request |
| `Drain.DrainedMeansSettled` | src/main.rs:1579-1589 | when the wait succeeds, every packet counted before the target was read has left queue and batch and was applied or counted as lost |
| `Drain.AttemptIs` | src/capture.rs:41-53 | the outcome of an attempt: nothing on a closed queue, refused with 8192 packets queued, and queued last otherwise |
| `Drain.SizesBounded` | src/main.rs:443-470 | in every run at most 8192 packets are queued, and a batch has 1 to 256 |
| `Drain.BooksBalance` | src/capture.rs:41-53 | for any number of senders, packets queued are counted as accepted or about to be, refusals and packets of lost batches are counted as dropped or about to be, and every attempt has returned Ok or is about to |
| `Drain.LossesGrow` | src/capture.rs:41-53 | the list of lost packets and the loss counter only grow, and so do the refusals within it |
| `Drain.AheadByOne` | src/capture.rs:41-53 | processed runs ahead of accepted by at most the one packet in flight |
| `Drain.TwoSendersMayMiss` | src/capture.rs:41-53 | with two senders the wait can succeed while a counted packet is still queued |
| `CaptureQueue.CaptureQueue.Send` | src/capture.rs:41-53 | a send is the push, the count and the return of the model, Ok unless the queue is closed |
| `CaptureQueue.CaptureQueue.ConsumeBatch` | src/main.rs:443-470 | one turn of the consumer: up to 256 packets taken, applied or lost as a batch, then counted |
| `Reassembly.HoldsTheStream` | src/tls.rs:33-112 | while pieces of one stream arrive the machine holds exactly the covered bytes, and has ended exactly when the received prefix settles the matter |
| `Reassembly.ReportedOnCompletion` | src/tls.rs:59-113 | a name is reported once, on the piece that completes the decision, and is the verdict on the contiguous prefix |
| `Reassembly.NamesAreTheVerdict` | src/tls.rs:33-113 | whatever order, duplicates and overlaps, a run reports the verdict on the prefix received in the end, once |
| `Reassembly.OrderIndependent` | src/tls.rs:33-113 | two deliveries that cover the same bytes report the same |
| `Reassembly.SilentAfterContradiction` | src/tls.rs:44-50 | after two pieces that disagree on a byte nothing is reported any more |
| `ClientHello.FindExtensions` | src/pcap.rs:322-340 | the cursor finds the block of extensions of the specification |
| `ClientHello.ScanExtensions` | src/pcap.rs:341-372 | the loop over extensions computes what the list of extensions announces |
| `ClientHello.FindServerName` | src/pcap.rs:321-372 | the walk over a handshake message computes the server name of the specification |
| `ClientHello.SniOfEncoded` | src/pcap.rs:321-372 | of every encoded ClientHello (section 4.1.2 of RFC 8446) the name its extensions announce is found, whatever precedes and follows |
| `ClientHello.ServerNameIffValid` | src/pcap.rs:348-368 | an extension body is accepted exactly when it carries one host name (section 3 of RFC 6066) of 1 to 253 letters, digits, hyphens, dots and underscores, returned in lower case |
| `ClientHello.OnlyOfHello` | src/pcap.rs:321-346 | a name is found in whole ClientHello messages alone |
| `ClientHello.AnnouncedBehind` | src/pcap.rs:341-370 | the name is found behind any extensions of other types |
| `Hello.OthersGivenUp` | src/quic.rs:283-286 | a message of another type or of more than 16 KiB is given up as soon as its header is there |
| `Hello.JudgedStable` | src/quic.rs:283-294 | the verdict on handshake bytes asks for more first and is never taken back |
| `SparseBuffer.WrittenCells` | src/tls.rs:33-57 | writing at an offset marks and fills exactly the bytes of the piece |
| `Tls.RecordsStable` | src/tls.rs:81-110 | the verdict of the record parser asks for more first and is never taken back |
| `Tls.ScanOfWire` | src/tls.rs:81-110 | however a ClientHello is cut into records, the record parser reads the message itself |
| `Tls.OffsetUndoesWrap` | src/tls.rs:33-37 | offsets survive the wrap of sequence numbers (section 3.4 of RFC 9293) |
| `Tls.AddedRefines` | src/tls.rs:59-113 | with its base known, a flow takes a segment exactly as the strict reassembly machine takes the piece |
| `Tls.RunRefines` | src/tls.rs:59-113 | and so over whole runs |
| `Tls.DeliveryVerdict` | src/tls.rs:59-113 | every delivery of a stream reports the verdict on the received prefix, once |
| `Tls.OrderDoesNotMatter` | src/tls.rs:59-113 | two deliveries of the same bytes, in any order and overlap, across the wrap, report the same |
| `Tls.SliceIsPiece` | src/tls.rs:33-57 | a slice of the stream that ends within 32 KiB is placed exactly where it stands, across the wrap of sequence numbers; any other adds nothing |
| `Tls.ArrivedIsCovered` | src/tls.rs:33-57 | the bytes covered are exactly those that arrived in slices ending within 32 KiB |
| `Tls.HelloIsReportedOnce` | src/tls.rs:59-113 | end to end: a ClientHello in records in segments, all of whose bytes arrived in slices that end within the first 32 KiB, yields its name exactly once |
| `Tls.SilentAfterConflict` | src/tls.rs:44-50 | after conflicting segments the flow reports nothing |
| `LateBase.LateRefines` | src/tls.rs:59-113 | over a whole run without a SYN the flow refines the machine that takes the segments it held, the one that begins a record, and those behind it |
| `LateBase.LateReportsTheSame` | src/tls.rs:59-113 | without a SYN a flow reports what it would have with the base known from the start, whatever was held, contradictions included |
| `LateBase.LateHelloIsReportedOnce` | src/tls.rs:59-113 | end to end without a SYN: a ClientHello whose bytes arrived in such slices is reported exactly once if the first segment that begins with a handshake record begins the stream |
| `TlsFlow.Flow.Place` | src/tls.rs:33-57 | the copy loop places a segment as the specification says, which Tls.SliceIsPiece ties to the stream, and finishes on a conflict |
| `TlsFlow.Flow.Write` | src/tls.rs:44-53 | byte by byte, stopping at a contradiction |
| `TlsFlow.Flow.Advance` | src/tls.rs:54-56 | moves to the first byte not there |
| `TlsFlow.Flow.PlacePending` | src/tls.rs:63-67 | segments held before the base was known are placed in order |
| `TlsFlow.Flow.Add` | src/tls.rs:59-113 | a segment changes the fields and reports as the specification says |
| `TlsFlow.Flow.Read` | src/tls.rs:81-110 | the loop over records gathers the message of the specification |
| `TlsAssembler.Assembler.Feed` | src/tls.rs:121-165 | the whole table after a segment: the entry of the key follows the specification and of the others exactly the victim goes, the one silent longest, and only when the table is full |
| `TlsAssembler.ConnectionIsAFlow` | src/tls.rs:121-165 | for a connection from its SYN on, or from some data on when nothing is left of an entry, with bare acknowledgements, FIN and RST, the assembler reports what the flow of its data segments reports |
| `TlsAssembler.OrdinaryConnection` | src/tls.rs:121-165 | SYN, bare acknowledgement, data and FIN are such a connection |
| `TlsAssembler.HelloOfConnection` | src/tls.rs:121-165 | end to end: a ClientHello in records in the segments of such a connection, in any order and overlap, is reported exactly once when all its bytes arrived in slices that end within the first 32 KiB |
| `TlsAssembler.HelloOfLateConnection` | src/tls.rs:59-165 | end to end for a connection whose SYN was not seen |
| `TlsAssembler.KeysApart` | src/tls.rs:121-165 | over any interleaving of keys, one that never goes has the entry and gets the names that its own segments alone yield |
| `TlsAssembler.NoVictims` | src/tls.rs:137-147 | as long as the keys ever seen fit the table, nobody has to go |
| `PacketNumber.RecoveredIff` | src/quic.rs:194-208 | a number is recovered from its low bytes exactly when it lies in the window around the expected one or at the edge of the number space (appendix A.3 of RFC 9000) |
| `PacketNumber.RunRecovered` | src/quic.rs:194-208 | over any run inside the window every number is recovered |
| `PacketNumber.LargestIsMax` | src/quic.rs:330-336 | the number that steers decoding is the largest received |
| `QuicInt.ReadVarint` | src/quic.rs:108-116 | the loop reads the integer of the specification |
| `QuicInt.VarintOfEncoded` | src/quic.rs:108-116 | every integer in every width that holds it is read back (section 16 of RFC 9000) |
| `QuicPacket.HeaderRefused` | src/quic.rs:128-163 | short headers, other versions, Retry packets and connection ids of more than 20 bytes are not walked |
| `QuicPacket.HeaderOfSealed` | src/quic.rs:128-163 | the header walk finds the sealed packet, whatever its source id, token and integer widths and whatever follows in the datagram |
| `QuicPacket.OpenUndoesSeal` | src/quic.rs:165-192 | for a number in the window, opening gives back payload and number, for any shape of header, given only that decryption undoes encryption (section 5.4 of RFC 9001) |
| `QuicPacket.OpensIff` | src/quic.rs:165-208 | if decryption fails under other numbers, a sealed packet is opened exactly when its number is in the window or at the edge of the number space |
| `QuicPacket.LawsCanBeMet` | src/quic.rs:165-192 | there are keys that meet both laws |
| `QuicPacket.Unmask` | src/quic.rs:172-182 | unmasks the number in place and reads it |
| `QuicPacket.Open` | src/quic.rs:165-192 | the steps in place compute the specification |
| `QuicFrames.ReadFrames` | src/quic.rs:210-256 | the cursor loop yields the CRYPTO pieces of the specification |
| `QuicFrames.FramesDecode` | src/quic.rs:210-256 | of any written frames, whatever widths their integers take, exactly the CRYPTO pieces are found, in order |
| `QuicFrames.ZerosAreNothing` | src/quic.rs:214-216 | zero bytes carry nothing |
| `QuicFlow.AddedRefines` | src/quic.rs:269-294 | a flow takes a piece as the lenient reassembly machine does |
| `QuicFlow.AddedAllRefines` | src/quic.rs:337-343 | and so all pieces of a packet |
| `QuicAssembler.PacketDelivers` | src/quic.rs:319-347 | a sealed packet is found, opened and handed to the flow of its connection |
| `QuicAssembler.DatagramRefines` | src/quic.rs:319-347 | a datagram of several packets, among them others that are not opened, drives the flow like the machine that takes the pieces of its own |
| `QuicAssembler.RunRefines` | src/quic.rs:319-347 | over whole runs of datagrams of any length, with packets of any shape and of other ids and kinds, as long as no gap between packets that count exceeds the idle lifetime, the entry follows the machine, the steering number and the time last seen |
| `QuicAssembler.SeenWhileLive` | src/quic.rs:349-372 | until the message is complete the flow was last seen with the last packet of its own, so only the gaps of a run are bounded, not its length |
| `QuicAssembler.ClippedCovers` | src/quic.rs:269-283 | clipping the CRYPTO pieces changes nothing within the first 16 KiB |
| `QuicAssembler.HelloIsReportedOnce` | src/quic.rs:306-347 | end to end: a ClientHello in CRYPTO frames of any order and overlap, in packets of any shape, in datagrams that carry other packets too, sealed; once covered, its name is reported exactly once |
| `QuicTable.Flow.Add` | src/quic.rs:269-294 | the flow in place computes the specification |
| `QuicTable.Assembler.MakeRoom` | src/quic.rs:349-361 | a full table first loses what is silent too long, then the flow silent longest |
| `QuicTable.Assembler.FeedPacket` | src/quic.rs:321-346 | one packet: the whole table after it, the entry of its key by the specification, the others there except those that make room |
| `QuicTable.Assembler.Feed` | src/quic.rs:319-347 | a datagram: the whole table and the name after it; who goes on the way goes only to make room, expired flows and then the one silent longest |
| `QuicTable.SeesItsOwn` | src/quic.rs:319-347 | the entry of an id follows its own packets in any datagram, and the name of a datagram in which no other packet is opened is the one its packets yield |
| `QuicTable.ClientApart` | src/quic.rs:319-361 | over any interleaving of clients and connections, from the same socket too, a connection whose flow never has to go has the entry and gets the names that its own datagrams alone yield |
| `QuicTable.HelloThroughTheTable` | src/quic.rs:306-361 | end to end through the table, among datagrams of any other clients and connections: the ClientHello once covered is reported exactly once |
| `QuicDone.DonePacket` | src/quic.rs:330-372 | a packet moves the time last seen of a flow that is done exactly when its number is in the window of the steering number or at the edge, and changes nothing else |
| `QuicDone.DoneDatagram` | src/quic.rs:319-372 | a datagram does so exactly when it has such a packet of the connection |
| `QuicDone.DoneExpires` | src/quic.rs:319-372 | over any run of datagrams without such a packet the flow was last seen when it was, and expires |
| `QuicDone.NameReportedAgain` | src/quic.rs:319-372 | a run with gaps below the idle lifetime in which every ClientHello has its name reported twice |
| `Pcapng.ReadOfEncoded` | src/annotate.rs:104-141 | every readable block is read back as written |
| `Pcapng.EncodedOfRead` | src/annotate.rs:104-141 | what is read as a block was written as that block |
| `Annotate.OptionsWithComment` | src/annotate.rs:54-64 | the comment is the first option and every option that was there stays |
| `Annotate.OptionsOfComment` | src/annotate.rs:41-50 | the comment option reads as its text, cut to what an option holds |
| `Filter.ApplyIsFilter` | src/annotate.rs:104-187 | on bytes of blocks the pass is the pass over the blocks |
| `Filter.ApplyOnlyOnBlocks` | src/annotate.rs:104-187 | a pass succeeds only on bytes of blocks |
| `Filter.FilterMeaning` | src/annotate.rs:104-187 | the file written means, block by block and in order, what was expected of each by the plan; what that is for a recording is said without the plan in Rewriting.FileRewritten |
| `Filter.ApplySucceedsIff` | src/annotate.rs:104-187 | a pass over bytes succeeds exactly when they are those of blocks it goes through |
| `Rewriting.JudgedAs` | src/annotate.rs:73-101 | the plan of a recording keeps a frame by who owned its tuple, or all when all traffic is recorded, and signs it with the label of its tuple as sent, else as received, else with none; for both kinds of recording |
| `Rewriting.FileRewritten` | src/annotate.rs:46-187 | down to the bytes, for both kinds of recording: every section gets the comment, every packet stays or goes and gets its label by what was seen of its tuple, anything else is as it was, and the counters are those of the packets |
| `Rewriting.AllTrafficStays` | src/annotate.rs:94-187 | a recording of all traffic loses nothing: every block stays in its place, a packet with interface, time, original length, frame and options |
| `Filter.FilterSucceedsIff` | src/annotate.rs:104-187 | exactly which files a pass refuses |
| `Filter.SamePacket` | src/annotate.rs:147-187 | a labelled packet keeps interface, fixed fields and frame |
| `PassAgain.SecondPassIff` | src/annotate.rs:54-187 | a second pass over the output of a first one succeeds exactly when every section and every kept labelled packet of the first file left room for its comment, and then it drops nothing |
| `PassAgain.StopsAtLarge` | src/annotate.rs:104-141 | a file with a block above the limit is refused |
| `PassAgain.LargestSectionFails` | src/annotate.rs:54-141 | a file whose first pass succeeds and whose second pass is refused, whatever the plan |
| `PassAgain.LargestSection` | src/annotate.rs:54-141 | there is a readable section header of the largest size |
| `Filter.ApplyFile` | src/annotate.rs:104-187 | the block loop computes the pass |
| `PcapngReader.SplitAgreesIff` | src/pcap.rs:69-119 | two pushes and one of the same bytes agree, in packets, link types, parser state and unread tail, exactly when all block lengths up to the split are in range or the bytes behind it leave no trace |
| `PcapngReader.DrainedReads` | src/pcap.rs:69-119 | what a push reads, keeps and throws away, in the terms of the bytes: the frames of the blocks, the unread rest, and a loss exactly when a length is out of range |
| `PcapngReader.ChunkingDoesNotMatter` | src/pcap.rs:69-119 | for a stream whose lengths are in range any split leaves the same packets, link types, parser state and unread tail, shorter than 2^26 bytes |
| `PcapngReader.BadLengthSplitsDiffer` | src/pcap.rs:84-88 | a stream with a bad length where the split matters |
| `PcapngReader.Reader.Push` | src/pcap.rs:69-119 | the loop over the buffer computes the specification |
| `Layout.WriterLaysOut` | src/etw.rs:457-501 | the bytes written for a list of frames, field by field: version, interfaces, time in microseconds since 1970 in two halves, lengths, padding |
| `Layout.ViewOfPiece` | src/annotate.rs:46-187 | the view of a laid out section or packet has the fields, the frame and the options that were laid out |
| `EtwWriter.Output.WriteBlock` | src/etw.rs:457-465 | a block as written, padded |
| `EtwWriter.Output.WriteHeader` | src/etw.rs:467-482 | a section header and the two interfaces |
| `EtwWriter.Output.WritePacket` | src/etw.rs:485-501 | a packet block of the frame |
| `Pipeline.PacketBlockMeans` | src/etw.rs:485-501 | the block written for a frame means that frame on its interface |
| `Pipeline.ReaderSeesFrames` | src/pcap.rs:69-119 | the reader yields exactly the parsable frames of a file, in order |
| `Pipeline.RecordedPassesThrough` | src/etw.rs:457-501 | writer, pass and reader composed: the reader yields exactly the kept parsable frames, however the bytes are split |
| `EtwWorker.NotedIsWindow` | src/etw.rs:99-112 | the list kept is the last 8192 ids taken |
| `EtwWorker.NoRepeats` | src/etw.rs:99-112 | no id is taken twice within 8192 |
| `EtwWorker.Dedup.First` | src/etw.rs:99-112 | tells whether the id is new and notes it |
| `EtwWorker.Worker.Handle` | src/etw.rs:141-201 | one piece of work |
| `EtwWorker.Worker.Consume` | src/etw.rs:134-203 | the loop over the queue |
| `EtwWorker.WithoutEffect` | src/etw.rs:141-201 | what has no effect: anything behind the shutdown, a start that fails or finds a file open, a stop without one, a repeated frame; a failed file gets nothing more |
| `EtwWorker.FileHoldsTheRecording` | src/etw.rs:134-203 | a file holds its header and exactly the new frames queued between its start and its stop, in order; the same frames go on to analysis |
| `EtwWorker.TakenMore` | src/etw.rs:99-112 | the ids of the frames of a file are exactly those taken while it was written |
| `EtwWorker.OrderIsWindow` | src/etw.rs:134-203 | in every run the list of the worker is the last 8192 ids taken of everything that came |
| `EtwWorker.FileHoldsEachOnce` | src/etw.rs:99-203 | whatever came before, a file holds exactly the frames taken between its start and its stop, each with the id and content of one frame queued, and no id comes twice within 8192 frames, nor again after one taken before |
| `DnsName.DecodeOfName` | src/pcap.rs:374-416 | exactly which names are read, and to what: at most 128 labels and pointers with the root, at most 255 wire bytes; the end is behind root or first pointer |
| `DnsName.DecodesIff` | src/pcap.rs:374-416 | something is read exactly when the message holds such a name; pointer cycles hold none |
| `DnsName.DecodeOfEncoded` | src/pcap.rs:374-416 | every legal uncompressed name, 127 one-byte labels too, is read back (sections 3.1 and 4.1.4 of RFC 1035) |
| `DnsName.DecodeOfCompressed` | src/pcap.rs:392-402 | exactly when a compressed name is read back |
| `DnsName.LongestCompressedFails` | src/pcap.rs:379-384 | a compressed name of 127 labels is not read |
| `DnsName.LongNameFails` | src/pcap.rs:379-384 | such a message, whose name is read when it is written out |
| `DnsName.JoinedFirst` | src/pcap.rs:374-416 | of labels with a text of their own the first comes before a dot and the others |
| `DnsName.ReadName` | src/pcap.rs:374-416 | the loop, with the text it builds |
| `DnsMessage.ParseDns` | src/pcap.rs:424-511 | the loops compute the addresses of the specification, which AddressesOfResponse and DnsAnswers.AnswersAre tie to the header and to the records |
| `DnsMessage.AnswersIff` | src/pcap.rs:431-434 | for a header written field by field (section 4.1.1 of RFC 1035) the message is read exactly when it is a response, not truncated and without error, whatever the other bits |
| `DnsMessage.EndsAtForeign` | src/pcap.rs:456-500 | reading ends at a record of another class or one the message does not hold whole |
| `DnsMessage.RecordsOfLaidOut` | src/pcap.rs:456-510 | records laid out in a message, names in any legal form, are read back |
| `DnsMessage.AddressesOfResponse` | src/pcap.rs:424-511 | a message with a header laid out field by field gives what its records say of the first question if it is a response, complete and without error, and nothing otherwise |
| `DnsAnswers.AnswersAre` | src/pcap.rs:449-510 | the addresses are those of the address records in order, at most 64: under the name asked for and for the least time where the first fifteen aliases that follow one another lead from it, under their own name elsewhere |
| `DnsAnswers.ResponseGives` | src/pcap.rs:424-511 | the same from the bytes of a laid out response |
| `DnsMessage.AliasesLeadBack` | src/pcap.rs:448-506 | however many aliases lead to them, up to the limit, addresses carry the name asked for and the least time to live on the way |
| `Calendar.NumberOfCivil` | src/main.rs:2117-2128 | every day number, negative too, gives a valid Gregorian date whose number it is |
| `Calendar.CivilOfNumber` | src/main.rs:2117-2128 | every valid date is the date of its number |
| `Calendar.ConsecutiveDays` | src/main.rs:2117-2128 | consecutive numbers give consecutive dates, and day 0 is 1 January 1970 |
| `Calendar.NextNumber` | src/main.rs:2117-2128 | the reference count of days advances by one with the date |

## Left out

- HTTP API, request guard, user interface, HTML report, translations, window tracking: presentation.
- The capture process, ETW sessions, system calls, `/proc`, resolver calls, files, permissions, temporary files and renaming: their results are inputs, a file is a sequence of bytes.
- Clock readings are inputs and numbers without bound; where time must not go backwards the theorem says so. Counters and byte totals do not wrap.
- The order of hash maps is free in the program: victims of an eviction, dropped addresses, the order of rows and roots are inputs or ghost results constrained by a predicate. Sorting victims is modelled as picking the oldest one by one.
- AES-GCM, HKDF, the header-protection cipher: abstract functions with the law that decryption undoes encryption and, where a theorem says so, that it fails under another packet number.
- Parsing of link and IP headers, `classify`, `well_known_label`, `key_id`, `label`, `proto_param`, `dump_file_stem`: parameters of the model, each settled by reading one branch.
- Conn: the fields `id`, `asn`, `owner` and `scope` and the textual forms of addresses are not modelled; a row is a value, the map that holds the rows is updated in place.
- TlsAssembler.Assembler.Feed: entries of the flow table are values, so two references to one flow cannot exist.
- QuicTable.Assembler.Feed: entries are values as well.
- QuicTable.ClientApart: datagrams in which packets of two connections are opened are not covered; of two names in one datagram the program reports the last.
- When a recording looks at rows is free in `RecordedHistory`; this covers the looks of the program after each packet and poll, at the start and at the end.
- RecordingProtocol.App.TakeForStart: metadata is a value here and a class in `DumpMeta`; log texts, the sidecar and sizes are not modelled, nor is the panic of a task.
- Drain.DrainedMeansSettled: the time limit of the wait is a step that may come at any time; the panic of a batch is a step, other panics are not modelled.
- DnsName.ReadName: the text of a label (lossy UTF-8) is a parameter.
- PcapngReader.Reader.Push: the frame parser is a parameter with a state; what it does with a frame is covered by the TLS, QUIC and DNS parts.
- EtwWorker.Worker.Handle: decoding the event buffer into group, number, link type and frame is not modelled; a failing write is an input.
- `refresh_selected_group`, `whois_targets`, the retry policy of lookups and the caches on disk: one branch each.
