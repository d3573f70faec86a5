# A verified model of the Sim game server

The repository is a multi-threaded C++ server for a two-player graph game in the manner of Sim: on a
board of six nodes the players take turns to claim an edge, and whoever closes a triangle of their own
edges in node 0's component loses the round. A lobby thread owns the connections that are not playing;
each game runs in a thread of its own; connections move between them through queues that signal an
eventfd. This project models that behaviour in Dafny and proves what it keeps over every run.

`dafny verify dfyconfig.toml` checks everything. The files, bottom up:

| file | subject |
|---|---|
| `Cycles`, `GameGraph`, `GraphGrowth` | the depth-first search for a shortest cycle, and what a new edge does to its answer |
| `GameRules`, `FullBoard` | turns, losses and rounds on the two boards; which full boards occur |
| `Splitting`, `BufferedParser`, `Chunks` | the streaming parser and how it depends on the way its input is cut |
| `ProtocolData`, `ProtocolText`, `RoundTrip`, `Lines` | the message serializer against that parser, and what any line or sent message arrives as |
| `ObjectLists`, `Decimals`, `GraphText` | the two list formats and their decoders |
| `Numerals` | `std::stoi` on any text |
| `EventfdQueue` | the locked queue and its wake-ups |
| `RoomStructs`, `Lobby`, `World`, `Places`, `Names`, `NameClashes`, `Capacity`, `ServerRuns` | lobby and game threads as one transition system |
| `IdleUsersRoom`, `LobbyMessages` | the lobby object, handler by handler, against the functions of `Lobby`, and what each message does there |
| `GameHandlers`, `GameRuns`, `GamePlay`, `GameThreads`, `Arrivals`, `Returns`, `Game` | the game object, handler by handler, what each message does to it, its runs, their place in the transition system, and how players come back |
| `Epoll`, `Dispatch` | the handler table against the kernel's interest set, and which reported events reach their handlers |
| `LobbyWatch`, `LobbyDispatch`, `GameWatch` | what the lobby and a game keep in such a table, what the loop does with it, and when a game's calls on it throw |

Conventions. Code that changes objects in place is a class whose methods are proved against a function of
the old state (`View()`, `State()`, `Edges()`); the properties are lemmas about those functions. A thrown
C++ exception is a value (`error`, `threw`, `stopped`). A connection is identified by its file
descriptor, and `accept` yields one that is not open. The time stamps of the game are unsigned 64-bit
numbers that wrap around. The number of nodes is a parameter except where six matters. Clocks, accepted
descriptors, received messages and the scheduling of threads are arbitrary.

Where the code differs from what its comments or names suggest, the model follows the code:

- The loss test only sees triangles in the component of node 0 (`IncrementalLossTest` says when a move loses).
- A round in which one full-board shape arises never ends: every further command is denied (`FullBoardTheorem`, `FullBoardStuck`).
- The rejoin branch of the lobby is dead, as the name scans before it refuse every registered name; no step takes a room from PAUSED to RUNNING (`PausedNeverRuns`). A game thread itself can still fill a free seat exactly while two players are seated, queued or being sent (`FillsIff`). The arrival that fills it resumes the game exactly if its descriptor is new to the game's table and neither time check drops anybody, where the second seat keeps the stamp of its former owner (`ArriveExact`). In runs without stranded clients a seat is never filled again (`CleanPauseIsFinal`).
- The thread of a new game starts before its two players are pushed. A game that ends in between strands a client. Names are distinct in every run without such an end (`NameUniqueness`), and after the first such end some continuation has two live clients of one name (`CleanEndsExact`); the step that does it is always an accepted ENTER_USERNAME (`DistinctExact`).
- `Epoll::waitForEvents` returns as soon as it finds the descriptor at hand no longer monitored and loses the later events of the batch (`RemovalHidesRest`). A queue whose event is among them keeps its items and a positive counter, but its consumer sleeps until the next push (`QueueAsleepIff`, `AsleepExact`). After any run of the server, a lobby client that terminates in the same batch as a connection arrives is such a case (`ArrivalCanBeLost`).
- A game never removes a client it drops from its table. If a message of one player makes the time check drop the other, a read event of the other in the same batch still reaches its handler, which throws and ends the game (`TimeoutThrows`, `StaleReadReached`). An arrival would throw too for a descriptor the table still holds (`GameTable`), but in no run of the server does one come back to its game (`ArrivalThrowsIff`).
- The parser refuses input whose end sequence arrives in two parts, empty values and values that end in a carriage return in the last line (`CutCharacterised`, `StreamRoundTrip`).
- A value with a colon inside arrives cut behind that colon (`ValueArrives`). A bad line loses the complete messages in front of it in the same chunk, which calls of their own would have delivered (`ErrorHidesMessages`).
- A `game_id` may have white space or a sign in front and any text behind its digits (`SignedDecimalRead`). A room list with a comma or closing brace in a name does not decode into its rows (`RoomListDecodes`).
- A hang-up of a player dropped before in the same batch pauses a full game once more (`StrangerPauses`).
- A system clock that is set back by one millisecond makes the time check drop a player (`ClockSetBack`).
- A descriptor that is closed and reused without `removeDescriptor` makes the epoll wrapper throw (`StaleDescriptor`).

## Model

| member | source | states |
|---|---|---|
| GameGraphs.GameGraph.constructor | src/game_logic/game_room/include/GameGraph.h:30 | a new board has no edges |
| GameGraphs.GameGraph.HasUndirectedEdge | src/game_logic/game_room/GameGraph.cpp:9-29 | valid edges are two different nodes of the board, anything else is an error, and the answer is membership in the edge set |
| GameGraphs.GameGraph.AddUndirectedEdge | src/game_logic/game_room/GameGraph.cpp:31-34 | exactly the two directions of the edge are added and the matrix stays symmetric |
| GameGraphs.GameGraph.Clear | src/game_logic/game_room/GameGraph.cpp:80-85 | no edge is left |
| GameGraphs.GameGraph.FindShortestCycleFrom | src/game_logic/game_room/GameGraph.cpp:40-55 | the search terminates and returns the least loop length over all lassos that continue the path walked so far, for any symmetric matrix |
| GameGraphs.GameGraph.FindShortestCycle | src/game_logic/game_room/GameGraph.cpp:57-61 | on a loop-free board the answer is the length of a shortest simple cycle of node 0's component, INT_MAX exactly if there is none |
| GameGraphs.GameGraph.HasCycleOfLength3 | src/game_logic/game_room/GameGraph.cpp:36-38 | true if and only if node 0's component holds a triangle |
| Cycles.MinLassoIsGirth | src/game_logic/game_room/GameGraph.cpp:40-61 | the least lasso from node 0 is the girth of its component, for every board size: each lasso holds a simple cycle and each simple cycle is met by a lasso |
| Cycles.GirthThreeIsTriangle | src/game_logic/game_room/GameGraph.cpp:36-38 | a girth of 3 is the same as a triangle near node 0 |
| GraphGrowth.IncrementalLossTest | src/game_logic/game_room/GameGraph.cpp:31-55 | with no triangle near 0 before, edge uv loses iff u and v share a neighbour in 0's component, or exactly one of them lies in it and the other's component holds a triangle |
| GraphGrowth.ReachesGrown | src/game_logic/game_room/GameGraph.cpp:31-34 | what node 0 reaches after a new edge, in terms of what it reached before |
| GraphGrowth.TriangleNear0Mono | src/game_logic/game_room/GameGraph.cpp:36-38 | the loss test is monotone in the edges |
| GameRules.PlayKeeps | src/game_logic/game_room/Game.cpp:79-160 | one command keeps both boards symmetric, loop-free, edge-disjoint and free of triangles near 0, with the edge counts the turn demands |
| GameRules.RunKeeps | src/game_logic/game_room/Game.cpp:79-160 | the same over any number of commands and rounds |
| GameRules.ReachableIffInvariant | src/game_logic/game_room/Game.cpp:129-159 | the boards some run reaches are exactly the boards of that invariant, so it cannot be strengthened |
| GameRules.LoserWaits | src/game_logic/game_room/Game.cpp:142-159 | a move that loses leaves empty boards with the opponent on turn |
| GameRules.TurnParity | src/game_logic/game_room/Game.cpp:142-159 | after any commands, over any number of lost rounds, the opener is on turn iff the number of accepted ones is even |
| GameRules.TurnsAlternate | src/game_logic/game_room/Game.cpp:92-103 | two accepted commands with none accepted in between come from different players, also across the end of a round |
| GameRules.RoundEdges | src/game_logic/game_room/Game.cpp:142-159 | in a round without a loss the edges on the board are the accepted commands |
| GameRules.RoundLength | src/game_logic/game_room/Game.cpp:142-159 | a round has at most n(n-1)/2 accepted commands, 15 on six nodes |
| FullBoard.FullBoardTheorem | src/game_logic/game_room/Game.cpp:129-159 | a board is reachable and full iff for some x the second mover owns {0,x} and the K4 on the other nodes and the opener the K2,4 between them; all other ways to fill it declared a loss |
| FullBoard.FullBoardShape | src/game_logic/game_room/Game.cpp:129-159 | the Ramsey argument: two disjoint boards without triangles near 0 that cover K6 with a fair turn have that shape |
| FullBoard.FullBoardStuck | src/game_logic/game_room/Game.cpp:134-140 | from a full board no further commands change anything |
| Splitting.SplitLossless | src/game_logic/protocol/BufferedParser.cpp:103-122 | the tokens concatenate to the input, and every token but perhaps the last ends at its first delimiter |
| Splitting.SplitCharacterised | src/game_logic/protocol/BufferedParser.cpp:103-122 | the tokens are the only list with these properties, for every string and non-empty delimiter |
| BufferedParsers.BufferedParser.SplitText | src/game_logic/protocol/BufferedParser.cpp:103-122 | the scanning loop computes that list |
| BufferedParsers.BufferedParser.constructor | src/game_logic/protocol/include/BufferedParser.h:23-26 | a new parser has an empty cache |
| BufferedParsers.BufferedParser.ClearCache | src/game_logic/protocol/BufferedParser.cpp:96-101 | all four cached fields are reset |
| BufferedParsers.BufferedParser.ParseLine | src/game_logic/protocol/BufferedParser.cpp:44-93 | how one token changes the four cached fields, and which tokens throw with which state left behind |
| BufferedParsers.BufferedParser.ParseMsgLines | src/game_logic/protocol/BufferedParser.cpp:43-94 | the loop feeds all tokens, up to the first that throws |
| BufferedParsers.BufferedParser.ParseChunk | src/game_logic/protocol/BufferedParser.cpp:9-41 | result and new cache of one call, with nothing returned for an empty output and for an exception |
| ParserRuns.ParseBehind | src/game_logic/protocol/BufferedParser.cpp:9-41 | separate calls on one parser add up to one accumulated run |
| Chunks.ChunkInvariance | src/game_logic/protocol/BufferedParser.cpp:9-122 | from any state, any clean way of cutting the input throws iff one call on the whole does, and otherwise messages and all four fields agree |
| Chunks.CutCharacterised | src/game_logic/protocol/BufferedParser.cpp:9-41 | input that parses whole parses in two pieces iff the cut is not inside an end sequence; a cut inside one always throws |
| RoundTrip.ParsedIsCanonical | src/game_logic/protocol/BufferedParser.cpp:81-92 | no message put out has an empty value, a colon before a value's end, a newline, or the method PARSING_FAILED, whatever is received in whatever pieces |
| RoundTrip.StreamRoundTrip | src/game_logic/protocol/ProtocolData.cpp:42-63 | a stream of serialized messages, fields in any order, parses back to exactly the list with a fresh cache iff every message is sendable |
| RoundTrip.ChunkedRoundTrip | src/game_logic/protocol/ProtocolData.cpp:42-63 | the same when the stream arrives in cleanly cut pieces |
| RoundTrip.UnsendableThrows | src/game_logic/protocol/BufferedParser.cpp:43-94 | a message outside that domain, among canonical ones, makes the parser throw |
| Lines.FieldLineExact | src/game_logic/protocol/BufferedParser.cpp:81-92 | every field line: it throws iff its first colon is missing or its last character; else the name is what precedes that colon, and the value ends with the next colon or the line |
| Lines.LineExact | src/game_logic/protocol/BufferedParser.cpp:44-93 | every token that ends in a newline, behind any cached part: which error with which state, the method it names, or the field it sets |
| Lines.PartExact | src/game_logic/protocol/BufferedParser.cpp:45-63 | every other token is cached, up to 10000000 characters, or 32 in a first line |
| Lines.SentArrives | src/game_logic/protocol/ProtocolData.cpp:42-63 | any message whose lines the parser takes, the last without a carriage return at its end, arrives with the fields those lines say, whatever its names and values hold |
| Lines.ValueArrives | src/game_logic/protocol/BufferedParser.cpp:83-91 | a value arrives as it was sent iff it has no colon before its end; otherwise it is cut behind the first one |
| Lines.ResultExact | src/game_logic/protocol/BufferedParser.cpp:9-41 | a call hands over the messages it completed, nothing at all if there are none, and only the exception if it throws |
| Lines.ErrorHidesMessages | src/game_logic/protocol/BufferedParser.cpp:9-41 | messages that a call of their own would hand over are lost when a bad rest arrives in the same chunk |
| ProtocolText.SerializeProtocolData | src/game_logic/protocol/ProtocolData.cpp:42-63 | the text is the method line and one line per field, each field once in some order, then the end sequence |
| ProtocolMessages.TableIsInverse | src/game_logic/protocol/ProtocolData.cpp:24-40 | the reversed table inverts the table: a method's text is the only entry that names it |
| ProtocolMessages.SerializeIsInverse | src/game_logic/protocol/ProtocolData.cpp:15-40 | every method name parses back from its text |
| ProtocolMessages.MethodTextPlain | src/game_logic/protocol/include/ProtocolData.h:34-47 | method texts are not empty, fit the parser's limit and hold no newline or carriage return |
| ObjectLists.SerializeRow | src/game_logic/protocol/ProtocolData.cpp:76-86 | the inner loop appends one row in braces |
| ObjectLists.SerializeObjectList | src/game_logic/protocol/ProtocolData.cpp:65-89 | the loops produce the comma-separated rows |
| ObjectLists.ListRoundTrip | src/game_logic/protocol/ProtocolData.cpp:65-89 | one decoder inverts the serializer on a list iff each row has an item and no item holds a comma or a closing brace |
| ObjectLists.DeterminedIff | src/game_logic/protocol/ProtocolData.cpp:65-89 | no other list has the same text iff the list is empty or one row with one non-empty item free of commas |
| ObjectLists.EmptyRowExchange | src/game_logic/protocol/ProtocolData.cpp:76-86 | in any list a row without items reads like a row with one empty item |
| ObjectLists.CommaExchange | src/game_logic/protocol/ProtocolData.cpp:78-85 | in any row an item with a comma reads like the two items around it |
| ObjectLists.BraceExchange | src/game_logic/protocol/ProtocolData.cpp:69-88 | in any list an item with "},{" reads like two rows |
| Decimals.DecimalRoundTrip | src/game_logic/game_room/GameGraph.cpp:71 | the decimal text of a number has only digits and reads back as the number |
| Decimals.DecimalUnique | src/game_logic/game_room/GameGraph.cpp:71 | it is the only digit string with that value and no leading zero |
| GraphText.SerializeUndirectedEdges | src/game_logic/game_room/GameGraph.cpp:63-78 | the loops produce the text of the sorted edge list, a comma behind each edge but (n-2,n-1) |
| GraphText.EdgeListSorted | src/game_logic/game_room/GameGraph.cpp:63-78 | that list holds each edge once, smaller node first, in strict lexicographic order |
| GraphText.DecodeEdges | src/game_logic/game_room/GameGraph.cpp:63-78 | a decoder recovers the list from the text |
| GraphText.EqualTextEqualGraph | src/game_logic/game_room/GameGraph.cpp:63-78 | equal texts mean equal boards, for every board size |
| GraphText.TrailingComma | src/game_logic/game_room/GameGraph.cpp:63-78 | the text is the comma-separated list of the edges, with one more comma at the end iff there are edges but not (n-2,n-1) |
| EventfdQueues.EventfdQueue.constructor | src/linux_commons_lib/eventfd_queue/EventfdQueue.h:18-22 | a new queue is empty with counter 0, as the protocol starts |
| EventfdQueues.EventfdQueue.Push | src/linux_commons_lib/eventfd_queue/EventfdQueue.h:24-42 | the item goes last and the counter up by one, the step Push of the protocol in every state that shows this queue |
| EventfdQueues.EventfdQueue.Pop | src/linux_commons_lib/eventfd_queue/EventfdQueue.h:44-57 | the first item comes out and the counter stays, the step Pop, which adds this item to the popped ones |
| EventfdQueues.EventfdQueue.IsEmpty | src/linux_commons_lib/eventfd_queue/EventfdQueue.h:59-63 | true exactly for the empty queue, the step Ask, after which the consumer waits or pops accordingly |
| EventfdQueues.EventfdQueue.Read | src/game_logic/game_server/IdleUsersRoom.cpp:266-269 | the counter is taken and the items stay, the step ReadCounter |
| EventfdQueues.QueueProtocol | src/linux_commons_lib/eventfd_queue/EventfdQueue.h:24-63 | in every interleaving of producers, one consumer and events the dispatcher loses: pushed is popped followed by the contents, a pop meets an item, and while the consumer sleeps with items waiting the counter is positive |
| EventfdQueues.AsleepExact | src/linux_commons_lib/eventfd_queue/EventfdQueue.h:24-42 | a step leaves items waiting for a consumer that will not be woken iff it loses an event while there are items; a push wakes it again |
| EventfdQueues.NeverAsleep | src/linux_commons_lib/eventfd_queue/EventfdQueue.h:24-63 | in a run that loses no event items never wait unannounced |
| EventfdQueues.DeliversIff | src/linux_commons_lib/eventfd_queue/EventfdQueue.h:44-63 | the consumer alone can deliver everything pushed, in order, iff no items wait unannounced |
| Dispatch.WaitForEvents | src/linux_commons_lib/epoll_lib/Epoll.cpp:45-72 | the loops over events and types call the handlers of the specified checks, whatever those handlers do to the table, and leave the specified table |
| Dispatch.DispatchExact | src/linux_commons_lib/epoll_lib/Epoll.cpp:50-72 | a handler is called at a check iff the table has one there and every descriptor up to it was still monitored at each of its checks |
| Dispatch.ReachedIff | src/linux_commons_lib/epoll_lib/Epoll.cpp:55-65 | in a batch whose called handlers add none of its descriptors back after removing it, the loop comes to a check iff no handler called before removed a descriptor that still had a check to come |
| Dispatch.RemovalHidesRest | src/linux_commons_lib/epoll_lib/Epoll.cpp:57-58 | in such a batch a handler that removes its own descriptor, unless for the last event type, hides all later events of the batch |
| Dispatch.QueueAsleepIff | src/linux_commons_lib/epoll_lib/Epoll.cpp:57-58 | such a batch with the event of a queue, which its handlers may register again but not remove, leaves the queue's items waiting unannounced iff there are any and a handler before it removed a descriptor in that way |
| Dispatch.ClosingHidesNothing | src/linux_commons_lib/epoll_lib/Epoll.cpp:55-65 | handlers that only close descriptors hide nothing: a handler is called iff the table had it before the batch |
| Dispatch.HangUpsForgotten | src/linux_commons_lib/epoll_lib/Epoll.cpp:67-70 | with such handlers the loop removes exactly the descriptors reported with EPOLLRDHUP or EPOLLHUP |
| Rooms.GameRoom.constructor | src/game_logic/game_room/RoomStructs.cpp:7 | a new room is idle and has no users |
| Rooms.GameRoom.SetGameState | src/game_logic/game_room/RoomStructs.cpp:17-19 | nothing but the state changes |
| Rooms.GameRoom.AddUser | src/game_logic/game_room/RoomStructs.cpp:44-53 | the first free name is set; a third user is refused and nothing changes |
| Rooms.GameRoom.RemoveUser | src/game_logic/game_room/RoomStructs.cpp:29-34 | the name is no longer registered and every other one still is |
| Rooms.GameRoom.RemoveAllUsers | src/game_logic/game_room/RoomStructs.cpp:63-66 | no name is registered |
| ServerRuns.EveryRun | src/game_logic/game_server/IdleUsersRoom.cpp:49-364 | in every run and interleaving each open connection is in exactly one of new-client queue, lobby, input queue, seat, report; rooms follow their protocol; the lobby's index maps are coherent; addUser never throws |
| LobbyWatch.StepWatched | src/game_logic/game_server/IdleUsersRoom.cpp:167-335 | no step makes the lobby's epoll throw, and after each the monitored client descriptors are exactly the keys of the client map, each watched by the kernel and with exactly a client's three handlers |
| LobbyWatch.ClientsFound | src/game_logic/game_server/IdleUsersRoom.cpp:293-297 | in every run the client of a monitored descriptor is in the map when its handler may run, so the lookup with at() does not throw |
| LobbyDispatch.OpsKeepQueue | src/game_logic/game_server/IdleUsersRoom.cpp:167-176 | no step of the server unregisters a queue of the lobby, though a second game in a room registers its eventfd again |
| LobbyDispatch.DropLosesWakeUp | src/linux_commons_lib/epoll_lib/Epoll.cpp:50-65 | for any table of the lobby, a client whose handler drops it hides the event of any queue behind it in the batch, and with items in the queue the lobby is not woken for them |
| LobbyDispatch.ArrivalCanBeLost | src/game_logic/game_server/IdleUsersRoom.cpp:49-55 | after any run of the server a lobby client that sends TERMINATE_CONNECTION in the batch that reports an arrival does this: the queued connections wait unannounced |
| LobbyDispatch.BatchWatched | src/linux_commons_lib/epoll_lib/Epoll.cpp:50-71 | while handlers run as steps of the server, with other threads in between, the table at each check of a batch is that of the server's state; so the removal after a hang-up finds the client removed already |
| LobbyDispatch.HandlerFindsClient | src/game_logic/game_server/IdleUsersRoom.cpp:293-335 | any handler the loop calls for a client's descriptor finds the client in the map |
| LobbyDispatch.DispatchWatched | src/linux_commons_lib/epoll_lib/Epoll.cpp:45-72 | whenever the loop returns, early or not, the monitored clients are again exactly those of the map |
| Places.StepKeeps | src/game_logic/game_server/IdleUsersRoom.cpp:265-364 | every single step of lobby or game threads keeps that conservation and coherence |
| Places.NewIsNew | src/game_logic/game_server/IdleUsersRoom.cpp:271-275 | a connection in the new-client queue is not in the lobby's map |
| Places.ReturnsAreNew | src/game_logic/game_server/IdleUsersRoom.cpp:237-248 | the clients a game reports back are not in the map and differ from each other |
| Places.SendConserves | src/game_logic/game_server/IdleUsersRoom.cpp:178-185 | pushing a client to a game moves it from the map to the end of the input queue and nobody else anywhere |
| Places.SitConserves | src/game_logic/game_room/Game.cpp:205-215 | taking a client from the queue moves it to a seat and nobody else anywhere, also when the thread throws |
| Places.LeaveConserves | src/game_logic/game_room/Game.cpp:267-290 | a disconnect empties at most one seat and closes just that connection |
| Places.HandleChangeConserves | src/game_logic/game_server/IdleUsersRoom.cpp:341-363 | handling a report moves its clients into the map and nobody else anywhere |
| Places.EndConserves | src/game_logic/game_room/Game.cpp:17-20 | the destructor moves the seated clients into the last report |
| ServerRuns.OpenChanges | src/game_logic/game_server/IdleUsersRoom.cpp:265-335 | which step may open or close which connection: only accept opens, only a drop, a disconnect or a refusal closes, and at most its own client |
| ServerRuns.NoOverwrite | src/game_logic/game_server/IdleUsersRoom.cpp:237-275 | neither map write replaces a live client |
| WorldIndex.JoinKeeps | src/game_logic/game_server/IdleUsersRoom.cpp:124-165 | joining keeps the room protocol and the index maps, never throws in addUser, and starts a thread only where none lives |
| WorldIndex.HandleChangeKeeps | src/game_logic/game_server/IdleUsersRoom.cpp:337-364 | so does handling a report |
| WorldIndex.HeadReport | src/game_logic/game_server/IdleUsersRoom.cpp:341-363 | the next report of a room is an empty PAUSED, or the one final IDLE of a thread that is gone |
| ServerRuns.OneThreadPerRoom | src/game_logic/game_server/IdleUsersRoom.cpp:138-176 | a game thread is started only in an IDLE room without one |
| ServerRuns.PausedNeverRuns | src/game_logic/game_server/IdleUsersRoom.cpp:111-118 | no step of any run takes a room from PAUSED to RUNNING |
| ServerRuns.HandlerIsRun | src/game_logic/game_server/IdleUsersRoom.cpp:49-80 | a message handler run to its end is a run of the transition system |
| ServerRuns.BatchIsRun | src/game_logic/game_server/IdleUsersRoom.cpp:293-322 | a batch of messages is a run of the transition system, up to the one that drops or moves its sender |
| ServerRuns.ReportsAreRun | src/game_logic/game_server/IdleUsersRoom.cpp:337-364 | draining a room's reports is a run of it |
| ServerRuns.ArrivalsAreRun | src/game_logic/game_server/IdleUsersRoom.cpp:265-291 | draining the new-client queue is a run of it, which closes exactly the refused connections |
| Names.StepNames | src/game_logic/game_server/IdleUsersRoom.cpp:82-122 | every step that ends no game with clients on their way keeps the names in order |
| Names.NameUniqueness | src/game_logic/game_server/IdleUsersRoom.cpp:82-122 | in every run without such an end live named clients have distinct names, idle names are registered nowhere, a game's clients are named as registered in its room, and no name is registered twice |
| NameClashes.DistinctExact | src/game_logic/game_server/IdleUsersRoom.cpp:82-122 | one step makes two live clients share a name iff it is an accepted ENTER_USERNAME with the name of another client in a room's queue, seat or report |
| NameClashes.EndExact | src/game_logic/game_server/IdleUsersRoom.cpp:155-157 | from any ordered state the end of a game leaves nobody on the way to it iff no continuation without further ends has two live clients of one name |
| NameClashes.CleanEndsExact | src/game_logic/game_server/IdleUsersRoom.cpp:155-157 | the same after every run of such ends from the start of the server, so the hypothesis of NameUniqueness cannot be weakened |
| ServerRuns.NamesCanClash | src/game_logic/game_server/IdleUsersRoom.cpp:155-157 | a concrete run after which two live clients have one name |
| Capacity.PlayersShrink | src/game_logic/game_server/IdleUsersRoom.cpp:155-157 | while a game thread lives, the players seated in, queued for and being sent to it never become more |
| Capacity.NeverFullAgain | src/game_logic/game_server/IdleUsersRoom.cpp:155-157 | a game with at most one player, counting queued and unsent ones, never has both seats filled again, in any run |
| Capacity.FillsIff | src/game_logic/game_room/Game.cpp:200-220 | a running game has both seats filled in some continuation iff it has at least two players by that count |
| Capacity.CleanPauseIsFinal | src/game_logic/game_server/IdleUsersRoom.cpp:111-118 | after a run without stranded clients, once a player of a full game left the game never has two again, whatever follows |
| Capacity.SeatIsFree | src/game_logic/game_room/Game.cpp:205-215 | in a run without such an end a thread that takes a client has a free seat: the exception for a third player is not thrown |
| IdleUsersRooms.IdleUsersRoom.constructor | src/game_logic/game_server/IdleUsersRoom.cpp:13-19 | rooms 1 to the room count exist, idle and empty |
| IdleUsersRooms.IdleUsersRoom.OnClientDisconnect | src/game_logic/game_server/IdleUsersRoom.cpp:324-335 | the client leaves the map and the waiting list and is closed; an unknown one changes nothing |
| IdleUsersRooms.IdleUsersRoom.DenyRequest | src/game_logic/game_server/IdleUsersRoom.cpp:250-256 | the sixth denial disconnects, the others count |
| Lobby.DenialsClose | src/game_logic/game_server/IdleUsersRoom.cpp:250-256 | a client is still there after a number of denials iff its count stays within five: the sixth closes it |
| IdleUsersRooms.IdleUsersRoom.NameTaken | src/game_logic/game_server/IdleUsersRoom.cpp:82-107 | the three scans together find a name iff another idle client has it or any room registered it |
| IdleUsersRooms.IdleUsersRoom.PausedRoomOf | src/game_logic/game_server/IdleUsersRoom.cpp:112-118 | the search finds a paused room that registered the name iff there is one |
| IdleUsersRooms.IdleUsersRoom.EnterName | src/game_logic/game_server/IdleUsersRoom.cpp:82-122 | the handler with its rejoin branch equals the handler without: the branch is never entered |
| IdleUsersRooms.IdleUsersRoom.NewGameThread | src/game_logic/game_server/IdleUsersRoom.cpp:167-192 | the room is running with both names registered, or addUser threw and which part was done |
| IdleUsersRooms.IdleUsersRoom.SendClientToGameThread | src/game_logic/game_server/IdleUsersRoom.cpp:178-185 | the client leaves the map and the waiting list and is last in the room's queue |
| IdleUsersRooms.IdleUsersRoom.FindWaiter | src/game_logic/game_server/IdleUsersRoom.cpp:146-148 | the search finds the one client that waits for the room, or none does |
| IdleUsersRooms.IdleUsersRoom.JoinGameRoom | src/game_logic/game_server/IdleUsersRoom.cpp:124-165 | deny, wait or start with the waiting client, as the lobby function says, including which game starts |
| IdleUsersRooms.TwoJoinsStart | src/game_logic/game_server/IdleUsersRoom.cpp:124-185 | two named clients that join the same idle room become its players: registered, out of the lobby and the waiting list, in its queue second joiner first, with everybody else untouched |
| Numerals.StoiExact | src/game_logic/game_server/IdleUsersRoom.cpp:127-136 | a text gives a number iff it is white space, an optional sign, digits with that value within an int, and a rest that does not start with a digit; every other text throws |
| Numerals.SignedDecimalRead | src/game_logic/game_server/IdleUsersRoom.cpp:127-136 | the decimal text of every number reads as that number, with white space and a sign in front and any such rest behind, and throws beyond an int |
| LobbyMessages.MessageExact | src/game_logic/game_server/IdleUsersRoom.cpp:49-192 | every message: who is dropped, whose denial is counted, who gets which name, who waits for which room, and which two start which game, with everything else unchanged |
| LobbyMessages.ParserErrorDrops | src/game_logic/game_server/IdleUsersRoom.cpp:298-312 | a parser exception drops its sender and nobody else |
| LobbyMessages.TwoJoinMessages | src/game_logic/game_server/IdleUsersRoom.cpp:124-185 | two named clients that send JOIN_GAME with the decimal number of an idle room are its players, second joiner first |
| LobbyMessages.TwoJoinsListed | src/game_logic/game_server/IdleUsersRoom.cpp:210-235 | the room's row then shows the second joiner first, the first one second, the room's number and the state RUNNING |
| LobbyMessages.TakeAllExact | src/game_logic/game_server/IdleUsersRoom.cpp:265-291 | of the queued connections exactly the first ones that fit below the limit are admitted, unnamed; the others are closed |
| LobbyMessages.TakeAllKeeps | src/game_logic/game_server/IdleUsersRoom.cpp:265-291 | nobody else is touched |
| IdleUsersRooms.IdleUsersRoom.GetRoomList | src/game_logic/game_server/IdleUsersRoom.cpp:210-235 | row i shows room i: its waiting client with an empty second column, or its first and second user, its decimal number, and 0, 1 or 2 for its state; the text decodes into these rows iff the shown names are free of commas and closing braces |
| IdleUsersRooms.EveryWaiterListed | src/game_logic/game_server/IdleUsersRoom.cpp:211-224 | as at most one client waits for a room, the inverted map loses none of them |
| IdleUsersRooms.RoomListDecodes | src/game_logic/game_server/IdleUsersRoom.cpp:210-235 | the decoder of serialized lists recovers those rows from the text iff the shown names are plain |
| IdleUsersRooms.PausesDrained | src/game_logic/game_server/IdleUsersRoom.cpp:354-360 | handling pending PAUSED reports leaves the room paused and nothing else changed |
| IdleUsersRooms.LastDrained | src/game_logic/game_server/IdleUsersRoom.cpp:342-353 | handling the last report brings back its clients with their names and counts, and leaves the room idle and without users |
| IdleUsersRooms.IdleUsersRoom.ProcessClientMessage | src/game_logic/game_server/IdleUsersRoom.cpp:49-80 | every message has the effect of its handler run to its end |
| IdleUsersRooms.IdleUsersRoom.OnClientWrite | src/game_logic/game_server/IdleUsersRoom.cpp:293-322 | a batch is handled in order until a message drops or moves its sender; a parser exception disconnects |
| IdleUsersRooms.IdleUsersRoom.AddClientBack | src/game_logic/game_server/IdleUsersRoom.cpp:237-248 | a returned client is in the map under its descriptor; none changes nothing |
| IdleUsersRooms.IdleUsersRoom.TakeClient | src/game_logic/game_server/IdleUsersRoom.cpp:272-281 | a new client enters unnamed, unless the limit is exceeded, when it is closed at once |
| IdleUsersRooms.IdleUsersRoom.OnNewClientConnect | src/game_logic/game_server/IdleUsersRoom.cpp:265-291 | the queue is drained and every connection taken in order |
| IdleUsersRooms.IdleUsersRoom.HandleReport | src/game_logic/game_server/IdleUsersRoom.cpp:342-362 | one report: clients come back and the room is cleared, or it is marked paused |
| IdleUsersRooms.IdleUsersRoom.OnGameStateChange | src/game_logic/game_server/IdleUsersRoom.cpp:337-364 | the reports of a room are handled in order until its queue is empty |
| Games.Player.constructor | src/game_logic/game_room/include/Game.h:16-22 | an empty seat, an empty board, never seen |
| Games.Game.constructor | src/game_logic/game_room/include/Game.h:43-48 | a new game runs unpaused with two empty seats and player one on turn |
| Games.Game.GetPlayer | src/game_logic/game_room/Game.cpp:326-334 | the player found is seated with the descriptor, the first seat going first, and none is found, the source's exception, exactly if nobody is |
| Games.Game.OnClientDisconnect | src/game_logic/game_room/Game.cpp:267-290 | the seat is emptied; the game ends when both are, otherwise it is paused and reports it |
| Games.Game.DenyRequest | src/game_logic/game_room/Game.cpp:185-191 | the sixth denial disconnects, the others count |
| Games.Game.UpdateClientLastSeen | src/game_logic/game_room/Game.cpp:166-183 | both time checks with unsigned 64-bit subtraction, the second after the effects of the first |
| Games.Game.ClearGame | src/game_logic/game_room/Game.cpp:349-352 | both boards are empty and the turn stays |
| Games.Game.FreeEdge | src/game_logic/game_room/Game.cpp:129-140 | an edge is free iff it is valid and on neither board |
| Games.Game.PlayEdge | src/game_logic/game_room/Game.cpp:142-159 | the mover's own board grows, the turn passes, and a triangle near 0 clears both boards, as the rules say |
| Games.Game.ProcessGameCommand | src/game_logic/game_room/Game.cpp:79-160 | deny, stop or play, in the order of the code's checks |
| Games.Game.ProcessClientMessage | src/game_logic/game_room/Game.cpp:51-72 | the answer to the message, then the time check unless the sender is gone or an exception was thrown |
| Games.Game.OnClientWrite | src/game_logic/game_room/Game.cpp:235-265 | a batch is handled in order until its sender is lost; a parser exception disconnects; a read of a client that was dropped before throws and ends the game |
| Games.Game.TakeFreeSeat | src/game_logic/game_room/Game.cpp:207-215 | the next client takes the first free seat; a third player stops the game |
| Games.Game.SeatNextClient | src/game_logic/game_room/Game.cpp:205-231 | one arrival, with unpausing and both time checks when the second seat is filled; a descriptor the table still holds makes it throw |
| Games.Game.OnNewClientConnect | src/game_logic/game_room/Game.cpp:200-233 | the queue is drained arrival by arrival, up to the first that throws |
| Games.Game.Forget | src/linux_commons_lib/epoll_lib/Epoll.cpp:67-70 | the removal after a hang-up takes the descriptor out of the game's table and changes nothing else |
| Games.Game.Destroy | src/game_logic/game_room/Game.cpp:17-20 | the seated clients move out of the seats into the last report, which is IDLE |
| GameRuns.GameBoards | src/game_logic/game_room/Game.cpp:79-160 | in every run of the whole game, over any number of rounds, disconnects and arrivals, the boards satisfy the board invariant |
| GameRuns.GameFull | src/game_logic/game_room/Game.cpp:129-159 | in every such run a round that fills all 15 edges leaves the one drawn shape |
| GameRuns.CommandCharacterised | src/game_logic/game_room/Game.cpp:79-140 | a command moves the board iff the game is not paused, the sender is on turn and characters 1 and 3 of the text are different digits 0 to 5 of a free edge, which is then played; a text shorter than three stops the game of a player on turn; all else is denied |
| GameRuns.OnceFilled | src/game_logic/game_room/Game.cpp:200-290 | once both seats were filled, a game that is not paused has both occupied, in every continuation; a stopped game stays stopped |
| GameRuns.ArriveExact | src/game_logic/game_room/Game.cpp:200-233 | an arrival at the second free seat leaves both players seated and unpaused iff its descriptor is new to the table, the first check does not drop the second player by the stamp of that seat's former owner, and the two clock reads are within the limit |
| GameRuns.GameStarts | src/game_logic/game_room/Game.cpp:200-233 | so in a new game the two pushed clients are seated in order and the game runs unpaused iff the two clock reads of the second arrival are within the inactivity limit; otherwise the first is dropped and the game paused |
| GameRuns.LeaveOneByOne | src/game_logic/game_room/Game.cpp:267-290 | the first of two players to leave pauses and reports the game, the second ends it without a report |
| GamePlay.RequestExact | src/game_logic/game_room/Game.cpp:51-191 | every message: it throws iff it is a command cut short; it loses its sender iff it is the sixth denied one; else the sender stays, counted if denied and stamped, the edge is played iff the command is good, and the other player is dropped iff silent |
| GamePlay.GameTurns | src/game_logic/game_room/Game.cpp:92-159 | in every run of a game the first seat makes the first accepted command and then every other one, and is on turn iff their number is even |
| GamePlay.LoserOpensNot | src/game_logic/game_room/Game.cpp:142-159 | the loser of a round is not on turn in the next one |
| GamePlay.StopsIff | src/game_logic/game_room/Game.cpp:22-77 | a running game goes on after an event iff it does not throw, is no GAME_LEAVE, and is no message or hang-up that leaves both seats empty |
| GamePlay.ThrownArrival | src/game_logic/game_room/Game.cpp:206-224 | an arrival that throws leaves a third player in the queue, and seats one whose descriptor the table still holds |
| GamePlay.BatchStopsIff | src/game_logic/game_room/Game.cpp:235-265 | a batch ends a running game iff a handled message of it is a GAME_LEAVE, is cut short, or empties both seats |
| GamePlay.BatchHandles | src/game_logic/game_room/Game.cpp:259-264 | the messages of a batch are handled in order, up to and with the first that loses the sender or throws |
| GamePlay.ParserErrorLoses | src/game_logic/game_room/Game.cpp:242-257 | a parser exception empties the sender's seat and no other |
| GamePlay.StrangerPauses | src/game_logic/game_room/Game.cpp:267-290 | a hang-up of a client without a seat pauses a full game and reports it |
| GamePlay.DenialsLose | src/game_logic/game_room/Game.cpp:185-191 | of a player's denied requests the first five are counted and the sixth loses the player |
| GameHandlers.UpdateSeenSeats | src/game_logic/game_room/Game.cpp:166-183 | for any clock: the time check keeps the sender and its seat and stamps it with this message's time, and drops the other player, whose stamp stays, iff seen before and too long ago modulo 2^64 |
| GameRuns.ElapsedExact | src/game_logic/game_room/Game.cpp:171-182 | the unsigned difference is within 30000 ms iff the true one is between 0 and 30000, or the clock went back by nearly 2^64 |
| GameRuns.TimeoutExact | src/game_logic/game_room/Game.cpp:166-183 | with stamps not in the future the sender stays and the other player is dropped iff seen before and more than 30000 ms ago |
| GameRuns.StampsInPast | src/game_logic/game_room/Game.cpp:166-168 | with a clock that never goes back no stamp lies in the future in any run, so no check wraps around |
| GameRuns.ClockSetBack | src/game_logic/game_room/Game.cpp:171-182 | a clock set back since the other player was seen drops that player |
| GameThreads.GameIsServerRun | src/game_logic/game_room/Game.cpp:51-290 | every handler of a game, whether it throws or not, is a run of that game's thread in the transition system, which keeps conservation, room protocol and index maps |
| Returns.ServerInOrder | src/game_logic/game_server/IdleUsersRoom.cpp:49-364 | between two handlers the lobby of every run is in the order that MessageExact asks for |
| Returns.EndReturns | src/game_logic/game_server/IdleUsersRoom.cpp:237-248 | whatever a game did, its end and the handling of its reports bring back exactly the clients still seated, with their names and counts, and leave the room idle |
| Returns.LeaveReturnsBoth | src/game_logic/game_room/Game.cpp:58-77 | a GAME_LEAVE ends a game of two and returns both players, unless the time check of that message drops the other |
| GameThreads.ServerUniqueFds | src/game_logic/game_room/Game.cpp:200-233 | in every state of the server the connections seated in and queued for one game are different |
| GameWatch.GameTable | src/game_logic/game_room/Game.cpp:205-224 | after every run of a game in which nothing threw, its table holds the queue's eventfd and exactly the descriptors that arrived and were not removed after a hang-up, with a client's handlers; the kernel watches of these only the seated ones; the registration of an arrival throws iff the table holds its descriptor |
| GameWatch.EventTable | src/game_logic/game_room/Game.cpp:200-290 | every event that does not throw keeps that |
| GameWatch.RegisterExact | src/game_logic/game_room/Game.cpp:219-222 | the three calls for an arriving client throw iff its descriptor is held, and otherwise leave it watched with its handlers and every other entry alone |
| GameWatch.HeldChanges | src/game_logic/game_room/Game.cpp:267-290 | an arrival puts its descriptor into the table and only the removal after a hang-up takes one out; a client that is dropped stays |
| GameWatch.TimeoutThrows | src/game_logic/game_room/Game.cpp:235-240 | once a message made the time check drop the other player, a read of that player throws |
| GameWatch.StaleReadReached | src/linux_commons_lib/epoll_lib/Epoll.cpp:50-65 | and the loop calls that read's handler when both events are in one batch, as the message closed the descriptor without removing it |
| Arrivals.ComingShrinks | src/game_logic/game_server/IdleUsersRoom.cpp:124-185 | while a game lives no step adds anybody to the connections queued for it or still to be pushed |
| Arrivals.NeverTwice | src/game_logic/game_server/IdleUsersRoom.cpp:124-185 | in no interleaving is a live game handed a descriptor number it took before, whatever was closed and accepted in between |
| Arrivals.ArrivalThrowsIff | src/game_logic/game_room/Game.cpp:205-224 | from the start of a game in any state of the server, through any events of the game and steps around it, an arrival throws iff both seats are taken |
| Epolls.Epoll.constructor | src/linux_commons_lib/epoll_lib/Epoll.cpp:11-18 | nothing is monitored and nothing watched |
| Epolls.Epoll.AddMonitored | src/linux_commons_lib/epoll_lib/Epoll.cpp:28-35 | an unknown descriptor is monitored without handlers; a known one keeps its entry |
| Epolls.Epoll.RemoveMonitored | src/linux_commons_lib/epoll_lib/Epoll.cpp:37-43 | the descriptor is neither monitored nor watched any more |
| Epolls.Epoll.ResultingEvents | src/linux_commons_lib/epoll_lib/Epoll.cpp:128-150 | the loop computes the full mask of the descriptor's handlers |
| Epolls.FullMaskIs | src/linux_commons_lib/epoll_lib/Epoll.cpp:128-150 | that mask has the bit of each event type with a handler, EPOLLET in edge mode, and no other bit |
| Epolls.Epoll.ReloadEventHandlers | src/linux_commons_lib/epoll_lib/Epoll.cpp:128-159 | ADD the first time, MOD later; a refused call throws and leaves the kernel as it was |
| Epolls.SetHandlersSets | src/linux_commons_lib/epoll_lib/Epoll.cpp:74-84 | exactly the event types named by the mask get the handler |
| Epolls.CallSetsHandlers | src/linux_commons_lib/epoll_lib/Epoll.cpp:74-105 | adding sets exactly the named event types of its descriptor to the handler and removing empties exactly them, with every other handler of every descriptor unchanged |
| Epolls.Epoll.SetEach | src/linux_commons_lib/epoll_lib/Epoll.cpp:78-84 | the loop over all event types sets exactly the named handlers |
| Epolls.Epoll.ClearEach | src/linux_commons_lib/epoll_lib/Epoll.cpp:94-101 | the loop over all event types empties exactly the named handlers |
| Epolls.Epoll.AddEventHandlerTo | src/linux_commons_lib/epoll_lib/Epoll.cpp:74-88 | handlers and kernel mask after the call, and when it throws |
| Epolls.Epoll.RemoveEventHandlerFrom | src/linux_commons_lib/epoll_lib/Epoll.cpp:90-105 | the same for taking handlers away |
| Epolls.PerformKeeps | src/linux_commons_lib/epoll_lib/Epoll.cpp:28-43 | unless a watched descriptor is closed, a call keeps the interest set exact and throws iff its descriptor is not monitored |
| Epolls.PerformAnyway | src/linux_commons_lib/epoll_lib/Epoll.cpp:74-105 | with closing allowed, a call throws iff its descriptor is not monitored or was closed while it was |
| Epolls.RunAnyway | src/linux_commons_lib/epoll_lib/Epoll.cpp:28-159 | in every sequence of calls and closings the kernel watches only initialized descriptors, each for exactly its handled events |
| Epolls.EpollCoherence | src/linux_commons_lib/epoll_lib/Epoll.cpp:28-159 | after any sequence of calls that closes no watched descriptor the kernel watches exactly the initialized descriptors, each for exactly its handled events |
| Epolls.StaleDescriptor | src/linux_commons_lib/epoll_lib/Epoll.cpp:28-43 | a descriptor closed and added again throws on every handler call; removing it in between repairs this |

## Left out

- Sockets, `accept`, `recv`, `send`, `fcntl` and `epoll_wait`: foreign I/O. The results of sends are ignored by the code.
- Logging, `main`, `ServerController` and the configuration file: no property beyond their text.
- Contents of individual replies (`GAME_STATE`, `CONNECTED_OK` and so on) except the two list formats.
- Behaviour after a client was destroyed or moved within its own batch, or after the first time check of an arrival dropped the second player: undefined in C++, so the model stops there.
- A `GAME_COMMAND` while only one seat of an unpaused game was ever filled: the code reads through a null pointer, so the command handlers require a paused game or two seated players.
- IdleUsersRooms.IdleUsersRoom.JoinGameRoom: rooms are values in the lobby's map and `_pausedGameRooms` holds room ids, so the sharing of room objects through pointers is not captured; the in-place room is the separate class `Rooms.GameRoom`.
- GameThreads.GameIsServerRun: the input and output queues inside rooms and games are sequences whose reader may move at any time; when its eventfd wakes it is the subject of the queue class and of the dispatch loop alone.
- EventfdQueues.QueueProtocol: the counter is unbounded, so a writer that would block at the maximum of an eventfd is not modelled.
- Names.NameUniqueness: stated for runs in which no game ends while clients are on their way to it; `CleanEndsExact` shows that this is needed, on a server that admits at least one client.
- RoundTrip.StreamRoundTrip: the order of fields is arbitrary, as that of an unordered map; how a hash table picks it is not modelled.
- Dispatch.WaitForEvents: what a handler does is any sequence of operations on the table; handlers that throw, and at most ten events per call, are not modelled.
- LobbyDispatch.BatchWatched: the steps of other threads between two checks are those of whole server steps, and eventfds do not hang up.
- Arrivals.ArrivalThrowsIff: the events of the game are single handlings of a message, an arrival or a hang-up, between which other threads move; `NeverTwice` holds in every interleaving of their queue operations.
- Other failures of `epoll_ctl` and `fcntl`, such as an exhausted kernel limit.
- Liveness of threads and fairness of the scheduler.
