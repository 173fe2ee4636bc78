# wing-binlog-go, verified

A Dafny model of wing-binlog-go: a cluster of processes follows a MySQL binlog, numbers every
event, pushes the events to subscribers and other services, and persists and replicates its read
position so that another process can take over. The project proves what that machinery keeps in
every run, and where a property does not hold of the code it gives the failing run and the exact
condition under which the property does hold.

`dafny verify dfyconfig.toml` checks everything.

| file | part of the system |
|---|---|
| `Bytes.dfy`, `Frames.dfy`, `Positions.dfy` | little-endian integers, the wire frame, the position record and its cache file |
| `Decoder.dfy` | the receive loop shared by the subscribe server, the control server and the Go client |
| `Subscribe.dfy`, `Delivery.dfy` | topics and filters on both ends; one subscriber connection end to end |
| `Columns.dfy`, `Rows.dfy`, `Handler.dfy` | column decoding, row notifications, the binlog handler as a class |
| `Failover.dfy`, `Guarantees.dfy`, `Witnesses.dfy` | the replicated position protocol as a step system, its theorems, and the runs that break them |
| `Groups.dfy` | the group list on its shared backing array, node close, the connection counter |
| `Fanout.dfy`, `Broadcast.dfy` | the loop of `sendAll` over that list while connections come and go; one subscriber among others |
| `Drain.dfy` | the bounded HTTP queue and its workers |
| `Discovery.dfy` | the registry watcher and the least-loaded choice |

## How the protocol is modelled

A step of `Failover` is one atomic action of one goroutine: the exit check of a save, the write of
the cache file and the broadcast are three different steps, so `Close`, the stop handler, the agent
client and canal interleave freely. The actions themselves (`Boot`, `Write`, `Apply`, `Count`,
`RecordOf`) are the functions that the methods of class `Handler.Binlog` are proved to compose;
`SyncStepsCompose`, `StopStepsCompose` and `DeliverStepsCompose` state that the undisturbed steps
give the methods.

The environment is assumed to do this:

- the binlog has positions that grow within a file, names of 1 to 494 bytes and fewer than 2^63
  events; a table change is one event, a rows event any number;
- canal delivers the entries in order from the position it is started at and calls `OnPosSynced` for
  a position only after the entries before it. When closed it syncs the position it holds: where it
  was last started or synced, the zero position if it was never run. Closing falls between two of
  its callbacks, and no callback follows;
- a canal is good for one run. Its runner ends with an error when canal fails, is closed or is
  started a second time, and then toggles the running bit, at any later moment;
- the master's position is the end of what MySQL has written;
- a broadcast frame may arrive late, twice, out of order or never, at any process; several
  processes may believe they lead. Both are weaker than what consul and TCP give;
- one write of the cache file is atomic.

The theorems over runs need rules besides (`Failover.Rule`) that the code does not enforce:

- coverage (`AtLeastOnce`, `PersistedPositionIsCovered`, `SeededPromotionSkipsNothing`) needs only
  `StartsFirst`: a process without a record that is not exiting starts reading only before the
  first event;
- numbering (`StableNumbering`, `NumberingHasNoGaps`, `RecordsCountEvents`) needs all six:
  `StartsFirst` of every process; `StartsEven`: a process with a record starts reading only if it
  has notified as many events since its last position as its exit bit made it skip before;
  `StopsRunCanal`: a canal that is closed has been run; `StopsEven`: and, unless the process exits,
  what was notified and skipped makes up the distance between the last position and the one canal
  holds; `TakesOwnIndex`: a record that reaches a reading process carries its index, skipped events
  counted in; `AltersUnskipped`: no table change follows an event that the exit bit made the
  handler skip.

For each rule `Witnesses` has a run that breaks that rule alone and with it the theorem. In these
runs records travel only over agent connections: a process that does not lead connects to one that
does and keeps that one connection, a broadcast reaches the clients connected at that moment, in
order, and a crash breaks the connections.

Found false of the code as it stands, each with a failing run or input and the exact condition:

- a process that has no record yet (it crashed before its first save, or never received one) starts
  at the master's current position and can skip events: `RestartWithoutRecordSkips`,
  `RecordlessPromotionIsSafeIff`; it also counts from 1 again: `RecordlessPromotionRenumbers`,
  `PromotionNumberingIff` (rule `StartsFirst`);
- the runner of a closed canal can toggle the running bit behind the stop handler; the bit then
  stays set with nothing running, a start is ignored, and the next stop overwrites the saved
  position with an empty one: `RunningBitIsTrueIff`, `PromptReportsKeepBitTrue`,
  `LateReportLosesPosition`, `StopRecordNamesPositionIff`; the empty record can also give a process
  that is being stopped a wrong count: `ZeroRecordRenumbers` (rule `StopsRunCanal`);
- a leader stopped inside a transaction saves the last synced position with an index that counts
  later events, and a canal that failed is closed with the index of a record received since; who
  resumes from there sends events under a second index: `StopMidwayRenumbers`,
  `FailedCanalRenumbers`, `RepromotionRenumbers`, `StopRecordCountsIff` (rule `StopsEven`);
- a record that arrives during a stop, or rows swallowed by the exit bit, leave a position and a
  count that do not fit: `RecordDuringStopRenumbers`, `DeliveryWhileStoppingIff`,
  `ExitingPromotionRenumbers`, `PromotionNumberingIff` (rule `StartsEven`);
- the agent client stays connected across promotions, so the last record of the old leader can
  reach the new one after it has read on: `LateRecordRenumbers`, `DeliveryToReaderIff` (rule
  `TakesOwnIndex`);
- `OnTableChanged` has no exit check, so behind a swallowed row it takes that row's number:
  `TableChangeAfterExit`, `TableChangeNumberingIff` (rule `AltersUnskipped`);
- `sendAll` ranges over the list without a lock while `remove` shifts its array, so a node that leaves
  can make another one miss an event and a third get it twice: `FirstLeavesEarly`; exactly how often
  each node gets it, and when once: `HandedExactly`, `HandedOnceIff`, `OneLeavesIff`,
  `EveryEventReachesOnceIff`;
- `groups.close` skips nodes because `remove` shifts the array it ranges over; it closes everything
  only up to two connections: `ShutdownCloses`, `ShutdownClosesAllIff`;
- the connection counter can be minus one between the two accept callbacks: `CounterCanBeNegative`,
  `CounterIsExact`;
- bytes that share a read with a rejected frame are lost: `CutBeforeLastByte`, `ChunkIndependence`;
- the client keeps its receive buffer across connections: `ReconnectNeedsEmptyBuffer`;
- the client's length field is wrong from 2^24 on: `ClientEncodersRefinePack`;
- a SET member that is the empty string is lost: `EmptyMemberIsLost`, `SetDecodingIsLossless`;
- a service that moves under its old ID is not noticed: `MovedServiceIsMissed`,
  `RoundSynchronisesIff`, `WatcherStaysInStepIff`.

In `Fanout` and `Broadcast` a step is one read of the loop, one accept callback or one close, and
`groups.close` is a series of closes and then the replacement of the list. The theorems of `Fanout`
are about any one loop, whatever else runs. `Broadcast` assumes that the loop of one event ends
before that of the next begins, which canal's callbacks and the agent client each keep to.

## Model

| member | source | states |
|---|---|---|
| Frames.Pack | src/library/service/util.go:24-37 | filling the buffer byte by byte gives the frame: length, command, payload |
| Frames.UnpackOfPack | src/library/service/util.go:24-49 | unpacking a packed frame, whatever follows it, returns command and payload if and only if they fit two and four bytes |
| Frames.PackOfUnpack | src/library/service/util.go:24-49 | whenever unpacking succeeds, packing the result gives back the bytes it was read from |
| Frames.UnpackErrors | src/library/service/util.go:39-49 | a length field that claims more than there is gives the error; one below two, or fewer than four bytes, makes the code panic; nothing else does either |
| Frames.FrameLayout | src/library/service/util.go:24-37 | which bits of length and command stand in which byte, for the server's frame and the client's |
| Frames.ClientPack | src/library/client/tcp.go:256-272 | the client's buffer filling gives the client frame, fourth length byte taken from bit 32 |
| Frames.ClientSetPro | src/library/client/tcp.go:274-291 | a subscribe request is the client frame of a zero flag and the topic |
| Frames.ClientEncodersRefinePack | src/library/client/tcp.go:256-291 | the client's encoders agree with Pack if and only if the length is below 2^24, and then the server recovers command and content |
| Positions.PackPos | src/library/binlog/util.go:11-39 | the in-place encoding of any signed 64-bit position and index is the record layout |
| Positions.UnpackOfRecord | src/library/binlog/util.go:11-57 | decoding a record, whatever follows it, returns all three fields if and only if the two-byte length holds |
| Positions.RecordLayout | src/library/binlog/util.go:11-39 | which bits of length, position and index stand in which byte, then the name |
| Positions.RecordOfUnpack | src/library/binlog/util.go:42-57 | on any data at all decoding gives the one triple whose record the data starts with, and the empty one when there is none |
| Positions.ReplicationRoundTrip | src/wing-binlog-go/main.go:121-124 | a record framed as CMD_POS comes out unchanged, and narrowing to uint32 keeps MySQL positions |
| Positions.ReadOfPrefix | src/library/binlog/handler.go:264-282 | reading a file that starts with a record returns it if and only if the record fits the 512-byte buffer |
| Positions.CacheIsAVariable | src/library/binlog/handler.go:240-282 | after any saves, shorter over longer and never truncated, a read returns the last triple if and only if its name has at most 494 bytes |
| Decoder.FrameReader.Append | src/services/subscribe/node.go:117 | the buffer grows by the read, in place or in a larger array |
| Decoder.FrameReader.Discard | src/services/subscribe/node.go:145 | in-place compaction leaves exactly the bytes after the frame |
| Decoder.FrameReader.Peek | src/services/subscribe/node.go:119-134 | the header conditions classify the front of the buffer as incomplete, refused, out of range or a whole message |
| Decoder.FrameReader.OnMessage | src/services/subscribe/node.go:116-147 | the loop refines the pure decoder for all three policies and terminates |
| Decoder.DecodeContinues | src/library/client/tcp.go:413-468 | while only waiting, more bytes continue the parse where it stopped |
| Decoder.DecodeStops | src/library/control/node.go:90-113 | after a rejection or panic the rest of the read changes nothing |
| Decoder.ChunkIndependence | src/library/control/node.go:74-116 | every way of cutting a stream handles the same messages and leaves the same buffer if and only if no proper prefix of it is rejected |
| Decoder.CutBeforeLastByte | src/services/subscribe/node.go:129-133 | otherwise a concrete cut gives a different result |
| Decoder.ByteConservation | src/services/subscribe/node.go:117-145 | re-packing the handled messages and appending the buffer gives exactly the bytes received |
| Decoder.DecodeOfEncode | src/library/client/tcp.go:413-468 | any prefix of a well-formed stream decodes to a prefix of its messages, the whole stream to all of them |
| Decoder.SubscribeTakes | src/services/subscribe/node.go:119-144 | for every length field, command and tail, when the subscribe server waits, takes, refuses or panics |
| Decoder.ControlTakes | src/library/control/node.go:77-113 | the same for the control server |
| Decoder.ClientTakes | src/library/client/tcp.go:415-433 | the same for the client, which refuses an unknown command before the frame is complete |
| Subscribe.MatchFilters | src/library/service/util.go:9-21 | true if and only if there are no filters or one of them matches |
| Subscribe.TopicsAreAlternatives | src/library/service/util.go:9-21 | without topics every table matches, with topics exactly what one of them alone would match |
| Subscribe.ServerNode.AddTopic | src/services/subscribe/node.go:44-53 | the topic that is u with spaces around it, u having none at its ends, adds lower(u) at the end unless present |
| Subscribe.NormOfCore | src/services/subscribe/node.go:45-46 | trimming and lower-casing such a topic gives lower(u), for every lower-casing function |
| Subscribe.CoreExists | src/services/subscribe/node.go:45 | every topic is such a one |
| Subscribe.CoreIsUnique | src/services/subscribe/node.go:45 | in only one way |
| Subscribe.OuterSpacesMerge | src/services/subscribe/node.go:45-52 | two requests that differ only in outer spaces leave one topic |
| Subscribe.ServerNode.OnFrame | src/services/subscribe/node.go:135-168 | a tick queues a tick; a subscription is acknowledged and adds its topic; a ping is acknowledged and closes; any other flag closes; nothing else changes |
| Subscribe.Client.Subscribe | src/library/client/tcp.go:197-217 | remembers each new topic once and sends exactly those, nothing before the first connect |
| Subscribe.Client.Reconnect | src/library/client/tcp.go:249-252 | a new connection starts with one request per remembered topic, in order |
| Subscribe.SubscribedIsFirsts | src/library/client/tcp.go:203-215 | the client's list depends only on the topics named, not on the grouping into calls |
| Subscribe.FirstsKeepOrder | src/services/subscribe/node.go:47-52 | de-duplication keeps first occurrences in their order |
| Subscribe.TopicReplay | src/services/subscribe/node.go:149-168 | after any Subscribe calls and a reconnect, cut in any way, a fresh server node holds the client's topics without outer spaces and lower-cased, once each, in first-occurrence order; replaying changes nothing |
| Delivery.EndToEnd | src/services/subscribe/node.go:77-204 | in every run the client's events are a prefix, in order, of the events that matched the node's topics when the loop of sendAll reached it, and all of them once flushed and read |
| Delivery.QueuedInOrder | src/services/subscribe/node.go:77-168 | in every run what the node has written and still holds is exactly what was queued while it was online, in order: matching events, a tick per tick and keepalive, an error per refused command, with one acknowledgement per subscription and ping in between |
| Delivery.OnlineUntil | src/services/subscribe/node.go:55-162 | in every run the node is online exactly until the first close, failed write, ping or unknown flag |
| Broadcast.EveryEventReachesOnceIff | src/services/subscribe/groups.go:41-86 | over every run from any moment after the accept, between two fan-outs, each event sent reached a connected node exactly once and in order if and only if the list had not been replaced before any of them and, in each, the times the node was doubled equal those it was skipped or overwritten; in any case it was reached as often as these counts say |
| Broadcast.LedgerIs | src/services/subscribe/groups.go:75-80 | the ledger has one entry per fan-out begun, marked listed exactly when no replacement of the list came before it |
| Broadcast.ReachedEventsArrive | src/services/subscribe/tcp.go:118-132 | at every moment the client has a prefix, in order, of the events among these that matched when they reached its node, and all of them once flushed and read |
| Fanout.HandedExactly | src/services/subscribe/groups.go:41-86 | in every fan-out, whoever comes and goes meanwhile, a listed node that stays is handed the event once, plus once for each removal that doubled it, minus once for each that skipped it and each accept that overwrote it |
| Fanout.HandedOnceIff | src/services/subscribe/groups.go:41-63 | with any number of nodes leaving and none joining, a listed node that stays is handed the event exactly once if and only if no removal doubled or skipped it |
| Fanout.OneLeavesIff | src/services/subscribe/groups.go:41-63 | when one listed node leaves, every other is handed the event exactly once if and only if it was the last of the list, or at most the last one was unread, or the list had been replaced |
| Fanout.FirstLeavesEarly | src/services/subscribe/groups.go:41-63 | for every list of three or more, a run in which the first node leaves, the second misses the event and the last gets it twice |
| Delivery.ReconnectNeedsEmptyBuffer | src/library/client/tcp.go:219-254 | the next connection's messages come through and leave nothing behind if and only if the previous one left no bytes |
| Columns.UnsignedIsLosslessIff | src/library/binlog/util.go:69-125 | every unsigned number of 8, 16, 24, 32 and 64 bits, handed over as signed, decodes to itself if and only if the declared type fits the width or the top bit is clear |
| Columns.SignedIsUnchangedIff | src/library/binlog/util.go:69-125 | every signed number of every width on a signed column keeps its value, for 64 bits if and only if the type is neither an enum nor a set |
| Columns.OthersAreUnchanged | src/library/binlog/util.go:62-147 | strings, bytes, unsigned numbers, floats and nil come back as they are |
| Columns.DecodingPanicsIff | src/library/binlog/util.go:83-100 | the cells on which the code panics, exactly |
| Columns.EnumIsItsMember | src/library/binlog/util.go:96-100 | an enum number decodes if and only if it has a member, and then to that member |
| Columns.SetIsItsMembers | src/library/binlog/util.go:101-113 | a set number decodes to a text that splits into exactly the members whose bits are set |
| Columns.SelectedAt | src/library/binlog/util.go:105-112 | each chosen member stands behind as many as were chosen before it |
| Columns.DecodeSet | src/library/binlog/util.go:101-113 | the SET loop joins the members whose bits are set |
| Columns.SplitOfSetText | src/library/binlog/util.go:101-113 | splitting the text on commas gives exactly the chosen members in declaration order |
| Columns.SetDecodingIsLossless | src/library/binlog/util.go:101-113 | different masks give different texts if and only if no member is empty |
| Columns.EmptyMemberIsLost | src/library/binlog/util.go:107-109 | the mask of an empty member reads like the mask zero |
| Rows.CellsMeaning | src/library/binlog/handler.go:143-159 | the map of a row that decodes holds the decoded cell under each column, nil where the row is short, and nothing else |
| Rows.NotificationAt | src/library/binlog/handler.go:167-181 | the k-th notification is a function of the k-th row or pair alone and carries the k-th consecutive index |
| Rows.NotificationsTell | src/library/binlog/handler.go:130-182 | field by field: each notification has the event's own schema, table, action, time and consecutive index, and under event.data the decoded row, for an update the row before as old_data and the row after as new_data, nil where a row is short and nothing else |
| Handler.Binlog.constructor | src/library/binlog/handler.go:20-55 | start position and index from the cache, clamped to the master, or from the master |
| Handler.BootOfRecord | src/library/binlog/handler.go:32-54 | booting from a file that starts with a record takes its index, and its position unless it names none or is beyond the master's in the same file |
| Handler.Binlog.SaveBinlogPositionCache | src/library/binlog/handler.go:240-260 | once the exit bit is set the file is unchanged and nothing is broadcast; otherwise the record is broadcast and, if the file is open, reading it back gives the saved triple |
| Handler.Binlog.OnPosSynced | src/library/binlog/handler.go:216-225 | saves and broadcasts the position with the current index unless exiting, so that the file reads back as that triple, then moves the last position even when exiting |
| Handler.Binlog.SaveBinlogPosition | src/library/binlog/handler.go:230-236 | the triple of a record from the leader becomes position and index, and is saved on unless exiting |
| Handler.Binlog.Close | src/library/binlog/binlog.go:54-69 | sets the exit bit, signals the stop handler only the first time |
| Handler.Binlog.OnStopSignal | src/library/binlog/binlog.go:143-174 | clears running; a running canal that is closed has its own position saved, broadcast and made the last one; on exit the last position is saved, then the file is closed; with the exit bit set neither changes the file |
| Handler.Binlog.OnStartSignal | src/library/binlog/binlog.go:80-118 | ignored while the running bit is set; otherwise sets it and runs from the last position, or, without a file name, waits and panics |
| Handler.Binlog.OnTableChanged | src/library/binlog/handler.go:101-110 | counts and notifies one alter event, its fields stated one by one, whatever the exit bit says |
| Handler.Binlog.OnRow | src/library/binlog/handler.go:113-184 | with maps reused by reference, notifies exactly the leading rows or pairs that decode, each field as NotificationsTell says, with consecutive indices; panics at the first that does not decode and at a half pair, which has been counted; swallows all when exiting |
| Rows.Sendable | src/library/binlog/handler.go:137-182 | how far an event gets: everything before the first row or pair with a cell that fieldDecode refuses |
| Handler.Binlog.Refill | src/library/binlog/handler.go:169-177 | filling a map that still holds an earlier row leaves nothing of that row |
| Handler.Binlog.UpdateRows | src/library/binlog/handler.go:138-165 | fresh pairs linked into the reused map give the pure notifications of each pair, up to the first that fails |
| Handler.Binlog.OtherRows | src/library/binlog/handler.go:167-181 | the reused data map gives the pure notification of each row, up to the first that fails |
| Failover.NoClamp | src/library/binlog/handler.go:40-54 | a process that boots from a file starting with the record of a reached position resumes exactly there, with that index: the clamp does not fire |
| Failover.NextKeeps | src/library/binlog/binlog.go:80-174 | every step of every process that obeys the rules keeps the coverage invariant, or the numbering invariant: starts, stops with the save canal makes when closed, runner ends, exits, crashes, deliveries and callbacks |
| Guarantees.AtLeastOnce | src/wing-binlog-go/main.go:121-162 | in every run that obeys StartsFirst each event between the cluster's start and a leader's cursor has been notified by some process |
| Guarantees.SeededPromotionSkipsNothing | src/library/binlog/binlog.go:106-118 | in such a run a process with a record resumes with nothing unsent before it |
| Witnesses.RecordlessPromotionIsSafeIff | src/library/binlog/binlog.go:106-118 | in all states of all runs over agent connections a process without a record, promoted at a given mark, leaves nothing unsent behind it, if and only if no event precedes that mark |
| Witnesses.RestartWithoutRecordSkips | src/library/binlog/handler.go:48-51 | for every log and every mark, a run in which a process restarts without a record and is promoted there with nothing sent |
| Guarantees.PersistedPositionIsCovered | src/library/binlog/handler.go:216-260 | in such a run every cache file and every broadcast record names no position, or one that passes no event that was not handed to notify |
| Witnesses.LateReportLosesPosition | src/library/binlog/binlog.go:118-174 | for every log and every mark, a run in which a position was saved and broadcast, a late toggle of the running bit lets the next stop overwrite it, and the process restarts at that mark without a record |
| Guarantees.RunningBitIsTrueIff | src/library/binlog/binlog.go:85-174 | in every run at all, once all ended runners have reported, the running bit tells whether canal is being read if and only if the stop handler found it still set an even number of times; before that each unreported runner counts as well |
| Guarantees.PromptReportsKeepBitTrue | src/library/binlog/binlog.go:118-174 | if the stop handler never finds the bit set when it comes to clear it, the bit is always right once all runners have reported |
| Guarantees.RunnersAreConserved | src/library/binlog/binlog.go:85-126 | in every run each runner started reports exactly once, or is still reading, or has ended and will report |
| Guarantees.StartReadsIff | src/library/binlog/binlog.go:106-118 | a start begins to read if and only if canal is new and no stop is under way |
| Guarantees.StopRecordNamesPositionIff | src/library/binlog/binlog.go:147-153 | after any run that obeys StartsFirst the record a stop saves names a position if and only if the closed canal had been run |
| Guarantees.ExitSuppressesSaves | src/library/binlog/binlog.go:54-69 | in any run, once the exit bit is set, the file changes only by and every frame the process broadcasts is one of the saves that had passed their check before; the stop handler's own save is not among them |
| Guarantees.StableNumbering | src/library/binlog/handler.go:139-168 | in every run that obeys all rules every event, however often and by whom it is sent, carries one index, its place in the log, and no two events share one |
| Guarantees.NumberingHasNoGaps | src/library/binlog/handler.go:107-168 | in every run that obeys all rules each index from 1 to a leader's counter stands for exactly one event, already sent under it |
| Guarantees.RecordsCountEvents | src/library/binlog/handler.go:216-236 | in every run that obeys all rules every persisted or broadcast record's index is the number of events at or before its position |
| Guarantees.PromotionNumberingIff | src/library/binlog/binlog.go:106-118 | after any such run a process that starts reading gives the next event its own number if and only if it has notified as many events since its last position as its exit bit made it skip before, or, without a record, no event precedes its start |
| Guarantees.TableChangeNumberingIff | src/library/binlog/handler.go:101-110 | after any such run a table change keeps the history well numbered if and only if the exit bit has made the handler skip nothing |
| Guarantees.DeliveryToReaderIff | src/library/binlog/handler.go:230-236 | when after any such run a record reaches a reading process, the next row or table change keeps the history well numbered if and only if the record carries the process's own index, skipped events counted in |
| Guarantees.DeliveryWhileStoppingIff | src/library/binlog/handler.go:216-236 | a record that slips into the save of a stop leaves the process at canal's position, with the next event's own number if and only if the record counts the events before that position |
| Guarantees.StopRecordCountsIff | src/library/binlog/binlog.go:147-153 | after any run that obeys all rules, the record a stop saves counts the events before its position if and only if what was notified and skipped since the last position makes up the distance between the two |
| Witnesses.RepromotionRenumbers | src/library/binlog/binlog.go:147-174 | a run in which a leader, stopped inside a transaction and promoted again, sends one event under two indices |
| Witnesses.StopMidwayRenumbers | src/library/binlog/binlog.go:147-153 | a run, breaking only StopsEven, in which a connected follower takes over from the record of such a stop and does the same |
| Witnesses.FailedCanalRenumbers | src/library/binlog/binlog.go:118-153 | a run, breaking only StopsEven, in which a failed canal is closed after a record arrived, and the restarted process gives two events the same index |
| Witnesses.RecordlessPromotionRenumbers | src/library/binlog/handler.go:32-51 | a run, breaking only StartsFirst, in which a process without a record sends a later event under index 1 |
| Witnesses.ExitingPromotionRenumbers | src/library/binlog/handler.go:216-225 | a run, breaking only StartsEven, in which an exiting process, started again behind swallowed rows, counts from before them |
| Witnesses.LateRecordRenumbers | src/library/agent/server.go:170-243 | a run, breaking only TakesOwnIndex, in which the last record of the old leader reaches the new one after it has read on, and two events carry the same index |
| Witnesses.RecordDuringStopRenumbers | src/library/binlog/handler.go:216-236 | a run, breaking only StartsEven, in which that record arrives during a stop and two events carry the same index |
| Witnesses.ZeroRecordRenumbers | src/library/binlog/binlog.go:118-153 | a run, breaking only StopsRunCanal, in which a record without a position does the same |
| Witnesses.TableChangeAfterExit | src/library/binlog/handler.go:101-119 | a run, breaking only AltersUnskipped, in which a table change takes a swallowed row's number |
| Guarantees.SyncStepsCompose | src/library/binlog/handler.go:216-260 | the undisturbed steps of a sync are OnPosSynced, exiting or not |
| Guarantees.DeliverStepsCompose | src/library/agent/server.go:170-190 | the undisturbed steps of a delivery are SaveBinlogPosition, exiting or not |
| Guarantees.StopStepsCompose | src/library/binlog/binlog.go:143-174 | the undisturbed steps of a stop are OnStopSignal with the position canal holds, exiting or not |
| Guarantees.ExitStepComposes | src/library/binlog/binlog.go:158-173 | the stop handler's exit branch is OnStopSignal on exit, its save suppressed |
| Groups.GroupList.OnConnect | src/services/subscribe/groups.go:82-86 | a new node is appended online, in place or in a larger array, and the list is one longer |
| Groups.GroupList.RemoveNode | src/services/subscribe/groups.go:53-63 | the tail is shifted over the node in the shared array and the counter callback runs whether or not it was found |
| Groups.GroupList.CloseNode | src/services/subscribe/node.go:55-70 | an online node goes offline and runs its callbacks, an offline one changes nothing |
| Groups.GroupList.CloseGroup | src/services/subscribe/groups.go:75-80 | ranging over the captured slice header while remove shifts it, then dropping the list |
| Groups.ConnectionAccounting | src/services/subscribe/groups.go:53-86 | in every run callbacks fire exactly once per closed node, the list is duplicate-free and online, the counter is the online nodes minus half-done accepts |
| Groups.ListIsAccepted | src/services/subscribe/groups.go:53-86 | in every run the list is exactly the nodes accepted since the last shutdown and still online, in the order of their accepts, and the accepts not counted yet are those whose second callback has not run |
| Groups.ListedIffOnline | src/services/subscribe/groups.go:53-86 | until a shutdown a node is listed if and only if it is online, and that if and only if it was accepted and has not gone |
| Groups.CounterIsExact | src/services/subscribe/service.go:175-182 | in every run the counter is the number of online nodes if and only if no accept is between its callbacks, and negative if and only if more accepts are than nodes are online |
| Groups.CounterCanBeNegative | src/services/subscribe/tcp.go:185-187 | a close between the two callbacks gives minus one |
| Groups.ShutdownCloses | src/services/subscribe/groups.go:75-80 | closing the group closes exactly the nodes at even places and the last one |
| Groups.ShutdownClosesAllIff | src/services/subscribe/groups.go:75-80 | all connections are closed if and only if there were at most two |
| Drain.TakenOnceInOrder | src/services/http/node.go:21-34 | in every interleaving payloads leave the queue once each and in order, and the queue stays within 10000 |
| Drain.DrainedAtShutdown | src/services/http/node.go:56-80 | when all workers have left, every payload was attempted exactly once if and only if none arrived after the last worker left, so in particular if none was enqueued after cancellation |
| Drain.HistoriesAre | src/services/http/node.go:21-34 | in every run what was taken and what is queued is exactly what was given to asyncSend, in order, each request counts once, and the service is cancelled exactly when told |
| Drain.CancelledDrains | src/services/http/node.go:56-80 | from every cancelled state the workers, with nothing more coming in, post everything and leave within the steps left |
| Drain.WorkersProgress | src/services/http/node.go:56-80 | every step of a worker brings the end one step nearer |
| Drain.QueueFills | src/services/http/node.go:11-30 | the queue takes any 10000 payloads |
| Discovery.GetDelete | src/library/client/watcher.go:118-133 | the entries whose ID the other list does not have, in order |
| Discovery.MissingAt | src/library/client/watcher.go:118-133 | each entry found stands behind as many as were found before it |
| Discovery.Watcher.Process | src/library/client/watcher.go:58-76 | a round deletes what is gone, adds what is new and remembers the answer; a failed query changes nothing |
| Discovery.Watcher.DialDelete | src/library/client/watcher.go:78-90 | exactly the addresses of vanished IDs leave the list |
| Discovery.Watcher.DialAdd | src/library/client/watcher.go:92-105 | new IDs enter online, known addresses are left alone |
| Discovery.RoundSynchronisesIff | src/library/client/tcp.go:113-139 | a round brings the keys from the old answer to the new one if and only if the answer can be followed, a condition on the two answers; entries whose ID stays keep identity and offline flag, all others are new |
| Discovery.ConsistentIsFollowable | src/library/client/watcher.go:118-133 | answers in which ID and address determine each other can always be followed |
| Discovery.WatcherStaysInStepIff | src/library/client/watcher.go:58-133 | over every history the keys are the addresses of the latest answer after every round if and only if every answer can be followed from the one before |
| Discovery.SurvivorKeepsEntryIff | src/library/client/tcp.go:119-135 | over every stretch of a history an address keeps its entry if and only if its ID never vanished in between, and then an offline flag stays set |
| Discovery.MovedServiceIsMissed | src/library/client/watcher.go:122-131 | whenever a service moves under its old ID to an address nobody else has, the answer cannot be followed and the new address does not enter the list |
| Discovery.GetServer | src/library/client/tcp.go:319-344 | for every iteration order, nothing if and only if all are offline, else an online service of minimal load |

## Left out

- Canal, go-mysql, consul, the TCP and leader libraries, sarama and go-redis: library code; only the assumptions above are used.
- Sockets, deadlines, sleeps, goroutine fairness and logging: reads are arbitrary chunks, writes are whole frames, concurrency is interleaving.
- JSON marshalling, regular expressions and Unicode lower-casing: any function, or the nested map JSON would show.
- A torn write of the cache file, and a write error that leaves the file unchanged.
- A callback that canal still makes, or is in the middle of, while it is closed.
- The three assignments of SaveBinlogPosition and the start of a runner are single steps.
- An agent connection that breaks other than by a crash: the theorems do not depend on connections, and the failing runs do not need it.
- Subscribe.ServerNode.OnFrame: waiting for room in a full queue is a guard of the steps in Delivery, not of the method.
- The check and the send of asyncSend are one step: a close in between makes the Go code send on a closed channel and panic.
- Two fan-outs at once in `Broadcast`, from canal and from an agent client still connected.
- An event whose fan-out is under way when a node connects: it may or may not reach that node.
- Delivery.EndToEnd: events are smaller than 4 GiB, the most a four-byte length can say.
- SendRaw, the agent's event relay to followers, and partial writes of the set-pro acknowledgement.
- Redis and Kafka services, Reload paths, configuration, daemon, path, ip and log helpers.
- The wait group of the HTTP node: the theorem speaks of workers that have left, not of when Wait returns.
