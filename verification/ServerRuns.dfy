// The main results about runs of the server, and the run that breaks name uniqueness.
module ServerRuns {
  import opened Options
  import opened ProtocolMessages
  import opened Rooms
  import opened Lobby
  import opened World
  import opened WorldIndex
  import opened Places
  import opened Names
  import opened IdleUsersRooms

  // Every run, in every interleaving of lobby and game threads.
  lemma EveryRun(maxPlayerCount: nat, roomCount: nat, steps: seq<Step>)
    requires IsRun(maxPlayerCount, Start(roomCount), steps)
    ensures var w := Final(maxPlayerCount, Start(roomCount), steps);
      Conserved(w) && RoomsOk(w) && IndexOk(w)
  {
    StartOk(roomCount);
    RunKeeps(maxPlayerCount, Start(roomCount), steps);
  }

  // Only accept opens a connection; only a disconnect, a refused client or a full server closes one.
  lemma OpenChanges(maxPlayerCount: nat, w: WorldState, step: Step)
    requires Inv(w) && Enabled(w, step)
    ensures var w' := Apply(maxPlayerCount, w, step);
      match step
      case Accept(fd) => fd !in w.open && w'.open == w.open + {fd}
      case TakeNew => w'.open == w.open || w'.open == w.open - {w.newClients[0]}
      case Message(fd, _) => w'.open == w.open || w'.open == w.open - {fd}
      case Drop(fd) => w'.open == w.open - {fd} && fd !in w'.lobby.clients
      case Leave(_, fd) => w'.open == w.open || w'.open == w.open - {fd}
      case _ => w'.open == w.open
  {
    if step.Message? { MessageOpen(w, step.fd, step.msg); }
  }

  lemma MessageOpen(w: WorldState, fd: int, msg: ProtocolData)
    requires Inv(w) && Enabled(w, Message(fd, msg))
    ensures Process(w.lobby, fd, msg).closed <= {fd}
  {
    if msg.methodName == JOIN_GAME && msg.HasField("game_id") && w.lobby.clients[fd].HasName() {
      JoinKeeps(w, fd, Stoi(msg.GetField("game_id")));
    }
  }

  // No map write of _onNewClientConnect or _addClientBack replaces a live client.
  lemma NoOverwrite(w: WorldState, id: int)
    requires Inv(w)
    ensures w.newClients != [] ==> w.newClients[0] !in w.lobby.clients
    ensures id in w.lobby.rooms && w.lobby.rooms[id].output != [] ==>
              var c := w.lobby.rooms[id].output[0];
              && (c.client1.Some? ==> c.client1.value.fd !in w.lobby.clients)
              && (c.client2.Some? ==> c.client2.value.fd !in w.lobby.clients)
              && (c.client1.Some? && c.client2.Some? ==> c.client1.value.fd != c.client2.value.fd)
  {
    if w.newClients != [] { NewIsNew(w); }
    ReturnsAreNew(w, id);
  }

  // A game thread is only started in an IDLE room, which has none.
  lemma OneThreadPerRoom(w: WorldState, fd: int, msg: ProtocolData)
    requires Inv(w) && Enabled(w, Message(fd, msg))
    ensures var o := Process(w.lobby, fd, msg);
      && !o.threw
      && (o.start.Some? ==>
            && o.start.value.room in w.lobby.rooms && o.start.value.room !in w.threads
            && w.lobby.rooms[o.start.value.room].state == IDLE)
  {
    MessageKeeps(w, fd, msg);
    if msg.methodName == JOIN_GAME && msg.HasField("game_id") && w.lobby.clients[fd].HasName() {
      JoinKeeps(w, fd, Stoi(msg.GetField("game_id")));
    }
  }

  // The rejoin the code intends never happens: no step takes a room from PAUSED to RUNNING.
  lemma PausedNeverRuns(maxPlayerCount: nat, w: WorldState, step: Step, id: int)
    requires Inv(w) && Enabled(w, step) && id in w.lobby.rooms && w.lobby.rooms[id].state == PAUSED
    ensures var w' := Apply(maxPlayerCount, w, step);
      id in w'.lobby.rooms && w'.lobby.rooms[id].state != RUNNING
  {
    match step
    case Message(fd, msg) => MessageLeavesPaused(w, fd, msg, id);
    case HandleChange(room) => ReportLeavesPaused(w, room, id);
    case _ =>
  }

  lemma ReportLeavesPaused(w: WorldState, room: int, id: int)
    requires Inv(w) && Enabled(w, HandleChange(room)) && id in w.lobby.rooms && w.lobby.rooms[id].state == PAUSED
    ensures var l := StateChange(w.lobby, room); id in l.rooms && l.rooms[id].state != RUNNING
  {
    HeadReport(w.lobby.rooms[room], room in w.threads);
  }

  lemma MessageLeavesPaused(w: WorldState, fd: int, msg: ProtocolData, id: int)
    requires Inv(w) && Enabled(w, Message(fd, msg)) && id in w.lobby.rooms && w.lobby.rooms[id].state == PAUSED
    ensures var l := Process(w.lobby, fd, msg).lobby; id in l.rooms && l.rooms[id] == w.lobby.rooms[id]
  {
    if msg.methodName == JOIN_GAME && msg.HasField("game_id") && w.lobby.clients[fd].HasName() {
      JoinKeeps(w, fd, Stoi(msg.GetField("game_id")));
    }
  }

  // The handler of one message, as the lobby runs it to its end, is a run of the transition
  // system in which no game thread moves between its queue operations.
  lemma HandlerIsRun(maxPlayerCount: nat, w: WorldState, fd: int, msg: ProtocolData) returns (steps: seq<Step>)
    requires Inv(w) && Enabled(w, Message(fd, msg))
    ensures IsRun(maxPlayerCount, w, steps)
    ensures Final(maxPlayerCount, w, steps).lobby == ProcessToEnd(w.lobby, fd, msg).lobby
    ensures Final(maxPlayerCount, w, steps).sending == []
  {
    var w1 := Apply(maxPlayerCount, w, Message(fd, msg));
    MessageKeeps(w, fd, msg);
    var o := Process(w.lobby, fd, msg);
    if o.start.None? {
      steps := [Message(fd, msg)];
      assert steps[1..] == [];
    } else {
      var w2 := Apply(maxPlayerCount, w1, Send);
      SendKeeps(w1);
      steps := [Message(fd, msg), Send, Send];
      assert steps[1..] == [Send, Send] && [Send, Send][1..] == [Send] && [Send][1..] == [];
      assert IsRun(maxPlayerCount, w2, [Send]);
      assert IsRun(maxPlayerCount, w1, [Send, Send]);
    }
  }

  // So is the handler of a whole batch, up to the message that drops or moves its sender;
  lemma {:induction false} BatchIsRun(maxPlayerCount: nat, w: WorldState, fd: int, msgs: seq<ProtocolData>) returns (steps: seq<Step>)
    requires Inv(w) && LobbyFree(w) && fd in w.lobby.clients && w.lobby.waiting.Keys <= w.lobby.clients.Keys
    ensures IsRun(maxPlayerCount, w, steps)
    ensures Final(maxPlayerCount, w, steps).lobby == ProcessBatch(w.lobby, fd, msgs).lobby
    ensures LobbyFree(Final(maxPlayerCount, w, steps))
    decreases |msgs|
  {
    if msgs == [] {
      steps := [];
    } else {
      steps := HandlerIsRun(maxPlayerCount, w, fd, msgs[0]);
      Places.RunKeeps(maxPlayerCount, w, steps);
      OneThreadPerRoom(w, fd, msgs[0]);
      WaitersStay(w.lobby, fd, msgs[0]);
      var w1 := Final(maxPlayerCount, w, steps);
      if fd in w1.lobby.clients {
        var rest := BatchIsRun(maxPlayerCount, w1, fd, msgs[1..]);
        FinalAppend(maxPlayerCount, w, steps, rest);
        steps := steps + rest;
      }
    }
  }

  // the handler of a room's reports;
  lemma {:induction false} ReportsAreRun(maxPlayerCount: nat, w: WorldState, id: int) returns (steps: seq<Step>)
    requires Inv(w) && LobbyFree(w) && id in w.lobby.rooms
    ensures IsRun(maxPlayerCount, w, steps)
    ensures Final(maxPlayerCount, w, steps).lobby == DrainReports(w.lobby, id)
    decreases |w.lobby.rooms[id].output|
  {
    if w.lobby.rooms[id].output == [] {
      steps := [];
    } else {
      StepKeeps(maxPlayerCount, w, HandleChange(id));
      var w1 := Apply(maxPlayerCount, w, HandleChange(id));
      var rest := ReportsAreRun(maxPlayerCount, w1, id);
      steps := [HandleChange(id)] + rest;
      assert steps[1..] == rest;
    }
  }

  // and the handler of new connections.
  lemma {:induction false} ArrivalsAreRun(maxPlayerCount: nat, w: WorldState) returns (steps: seq<Step>)
    requires Inv(w) && LobbyFree(w)
    ensures IsRun(maxPlayerCount, w, steps)
    ensures var w' := Final(maxPlayerCount, w, steps); var o := TakeAll(w.lobby, w.newClients, maxPlayerCount);
      w'.lobby == o.lobby && w'.open == w.open - o.closed && w'.newClients == []
    decreases |w.newClients|
  {
    if w.newClients == [] {
      steps := [];
    } else {
      StepKeeps(maxPlayerCount, w, TakeNew);
      var w1 := FirstArrival(maxPlayerCount, w);
      var rest := ArrivalsAreRun(maxPlayerCount, w1);
      steps := [TakeNew] + rest;
      assert steps[1..] == rest;
      MinusTwice(w.open, TakeNewClient(w.lobby, w.newClients[0], maxPlayerCount).closed,
                 TakeAll(w1.lobby, w1.newClients, maxPlayerCount).closed);
    }
  }

  lemma FirstArrival(maxPlayerCount: nat, w: WorldState) returns (w1: WorldState)
    requires LobbyFree(w) && w.newClients != []
    ensures w1 == Apply(maxPlayerCount, w, TakeNew) && LobbyFree(w1)
    ensures var first := TakeNewClient(w.lobby, w.newClients[0], maxPlayerCount);
      w1.lobby == first.lobby && w1.open == w.open - first.closed && w1.newClients == w.newClients[1..]
  {
    w1 := Apply(maxPlayerCount, w, TakeNew);
  }

  lemma MinusTwice(a: set<int>, b: set<int>, c: set<int>)
    ensures a - b - c == a - (b + c)
  {
  }

  // ---- A run in which two live clients share a name ----

  ghost predicate Reached(w: WorldState) {
    exists steps :: IsRun(10, Start(1), steps) && Final(10, Start(1), steps) == w
  }

  lemma RunAppend(w: WorldState, steps: seq<Step>, step: Step)
    requires IsRun(10, w, steps) && Enabled(Final(10, w, steps), step)
    ensures IsRun(10, w, steps + [step])
    ensures Final(10, w, steps + [step]) == Apply(10, Final(10, w, steps), step)
  {
    assert [step][1..] == [];
    assert IsRun(10, Final(10, w, steps), [step]);
    FinalAppend(10, w, steps, [step]);
  }

  lemma Next(w: WorldState, step: Step, w': WorldState)
    requires Reached(w) && Enabled(w, step) && Apply(10, w, step) == w'
    ensures Reached(w')
  {
    var steps :| IsRun(10, Start(1), steps) && Final(10, Start(1), steps) == w;
    RunAppend(Start(1), steps, step);
  }

  const JOIN_FIRST: ProtocolData := ProtocolData(JOIN_GAME, map["game_id" := "1"])

  const ANN: Client := Client(1, "ann", 0)
  const BOB: Client := Client(2, "bob", 0)

  function OneRoom(userA: string, userB: string, state: GameState, input: seq<Client>, output: seq<GameStateChange>): map<int, Room> {
    map[1 := Room(userA, userB, state, input, output)]
  }

  function Before(open: set<int>, newClients: seq<int>, clients: map<int, Client>, waiting: map<int, int>): WorldState {
    WorldState(open, newClients, LobbyState(clients, OneRoom("", "", IDLE, [], []), {}, waiting), map[], [], false)
  }

  function During(clients: map<int, Client>, input: seq<Client>, output: seq<GameStateChange>, waiting: map<int, int>,
                  threads: map<int, Thread>, sending: seq<GameSend>): WorldState {
    WorldState({1, 2}, [], LobbyState(clients, OneRoom("bob", "ann", RUNNING, input, output), {}, waiting), threads, sending, false)
  }

  lemma NewStep(open: set<int>, fd: int, clients: map<int, Client>)
    requires fd !in clients && |clients| < 10
    requires Reached(Before(open, [], clients, map[])) && fd !in open
    ensures Reached(Before(open + {fd}, [], clients[fd := Client(fd, "", 0)], map[]))
  {
    var w := Before(open, [], clients, map[]);
    var w' := Before(open + {fd}, [fd], clients, map[]);
    assert [] + [fd] == [fd] && [fd][1..] == [];
    Next(w, Accept(fd), w');
    assert |clients[fd := Client(fd, "", 0)]| == |clients| + 1;
    assert open + {fd} - {} == open + {fd};
    Next(w', TakeNew, Before(open + {fd}, [], clients[fd := Client(fd, "", 0)], map[]));
  }

  lemma NameStep(open: set<int>, fd: int, name: string, clients: map<int, Client>)
    requires fd in clients && clients[fd] == Client(fd, "", 0) && name != ""
    requires forall f :: f in clients ==> clients[f].name != name
    requires Reached(Before(open, [], clients, map[]))
    ensures Reached(Before(open, [], clients[fd := Client(fd, name, 0)], map[]))
  {
    var w := Before(open, [], clients, map[]);
    assert open - {} == open;
    assert !NameInRooms(w.lobby, name);
    Next(w, Message(fd, NameMessage(name)), Before(open, [], clients[fd := Client(fd, name, 0)], map[]));
  }

  // ann and bob are in the lobby, and ann waits for room 1.
  lemma TwoInLobby()
    ensures Reached(Before({1, 2}, [], map[1 := ANN, 2 := BOB], map[1 := 1]))
  {
    TwoUnnamed();
    var clients := map[1 := Client(1, "", 0), 2 := Client(2, "", 0)];
    NameStep({1, 2}, 1, "ann", clients);
    NameStep({1, 2}, 2, "bob", clients[1 := ANN]);
    assert clients[1 := ANN][2 := BOB] == map[1 := ANN, 2 := BOB];
    JoinAlone();
  }

  lemma TwoUnnamed()
    ensures Reached(Before({1, 2}, [], map[1 := Client(1, "", 0), 2 := Client(2, "", 0)], map[]))
  {
    assert NewRooms(1) == OneRoom("", "", IDLE, [], []);
    assert IsRun(10, Start(1), []) && Final(10, Start(1), []) == Before({}, [], map[], map[]);
    NewStep({}, 1, map[]);
    var open: set<int> := {};
    var none: map<int, Client> := map[];
    assert open + {1} == {1} && {1} + {2} == {1, 2};
    assert none[1 := Client(1, "", 0)] == map[1 := Client(1, "", 0)];
    NewStep({1}, 2, map[1 := Client(1, "", 0)]);
    assert map[1 := Client(1, "", 0)][2 := Client(2, "", 0)] == map[1 := Client(1, "", 0), 2 := Client(2, "", 0)];
  }

  lemma JoinAlone()
    requires Reached(Before({1, 2}, [], map[1 := ANN, 2 := BOB], map[]))
    ensures Reached(Before({1, 2}, [], map[1 := ANN, 2 := BOB], map[1 := 1]))
  {
    var w := Before({1, 2}, [], map[1 := ANN, 2 := BOB], map[]);
    assert Stoi("1") == Some(1);
    assert !SomeoneWaits(w.lobby, 1);
    Next(w, Message(1, JOIN_FIRST), Before({1, 2}, [], map[1 := ANN, 2 := BOB], map[1 := 1]));
  }

  lemma JoinTogether()
    requires Reached(Before({1, 2}, [], map[1 := ANN, 2 := BOB], map[1 := 1]))
    ensures Reached(During(map[1 := ANN, 2 := BOB], [], [], map[1 := 1], map[1 := NEW_THREAD], [GameSend(1, 2), GameSend(1, 1)]))
  {
    var w := Before({1, 2}, [], map[1 := ANN, 2 := BOB], map[1 := 1]);
    assert Stoi("1") == Some(1);
    assert w.lobby.waiting[1] == 1;
    assert SomeoneWaits(w.lobby, 1) && Waiter(w.lobby, 1) == 1;
    var w' := During(map[1 := ANN, 2 := BOB], [], [], map[1 := 1], map[1 := NEW_THREAD], [GameSend(1, 2), GameSend(1, 1)]);
    var o := StartRoom(w.lobby, 1, "bob", "ann");
    assert o.lobby.rooms == OneRoom("bob", "ann", RUNNING, [], []);
    assert Process(w.lobby, 2, JOIN_FIRST) == o.(start := Some(GameStart(1, 2, 1)));
    Next(w, Message(2, JOIN_FIRST), w');
  }

  lemma SendStep(w: WorldState, w': WorldState)
    requires Reached(w) && Enabled(w, Send)
    requires w' == w.(lobby := w'.lobby, sending := w.sending[1..])
    requires w'.lobby.clients == w.lobby.clients - {w.sending[0].fd}
    requires w'.lobby.waiting == w.lobby.waiting - {w.sending[0].fd}
    requires w'.lobby.paused == w.lobby.paused
    requires w'.lobby.rooms == SendClient(w.lobby, w.sending[0].room, w.sending[0].fd).rooms
    ensures Reached(w')
  {
    Next(w, Send, w');
  }

  // bob is sent first, leaves at once, and the game ends before ann is sent.
  lemma BobSent()
    requires Reached(During(map[1 := ANN, 2 := BOB], [], [], map[1 := 1], map[1 := NEW_THREAD], [GameSend(1, 2), GameSend(1, 1)]))
    ensures Reached(During(map[1 := ANN], [BOB], [], map[1 := 1], map[1 := NEW_THREAD], [GameSend(1, 1)]))
  {
    var w := During(map[1 := ANN, 2 := BOB], [], [], map[1 := 1], map[1 := NEW_THREAD], [GameSend(1, 2), GameSend(1, 1)]);
    var w' := During(map[1 := ANN], [BOB], [], map[1 := 1], map[1 := NEW_THREAD], [GameSend(1, 1)]);
    assert w'.lobby.clients == w.lobby.clients - {2} && w'.lobby.waiting == w.lobby.waiting - {2};
    assert [] + [BOB] == [BOB];
    SendStep(w, w');
  }

  lemma BobSits()
    requires Reached(During(map[1 := ANN], [BOB], [], map[1 := 1], map[1 := NEW_THREAD], [GameSend(1, 1)]))
    ensures Reached(During(map[1 := ANN], [], [], map[1 := 1], map[1 := Thread(Some(BOB), None, false)], [GameSend(1, 1)]))
  {
    var w2 := During(map[1 := ANN], [BOB], [], map[1 := 1], map[1 := NEW_THREAD], [GameSend(1, 1)]);
    var w3 := During(map[1 := ANN], [], [], map[1 := 1], map[1 := Thread(Some(BOB), None, true)], [GameSend(1, 1)]);
    assert [BOB][1..] == [];
    Next(w2, Sit(1), w3);
    var w4 := During(map[1 := ANN], [], [], map[1 := 1], map[1 := Thread(Some(BOB), None, false)], [GameSend(1, 1)]);
    Next(w3, Stop(1), w4);
  }

  lemma BobLeaves()
    requires Reached(During(map[1 := ANN], [], [], map[1 := 1], map[1 := Thread(Some(BOB), None, false)], [GameSend(1, 1)]))
    ensures Reached(During(map[1 := ANN], [], [GameStateChange(IDLE, Some(BOB), None)], map[1 := 1], map[], [GameSend(1, 1)]))
  {
    var w4 := During(map[1 := ANN], [], [], map[1 := 1], map[1 := Thread(Some(BOB), None, false)], [GameSend(1, 1)]);
    var w5 := During(map[1 := ANN], [], [GameStateChange(IDLE, Some(BOB), None)], map[1 := 1], map[], [GameSend(1, 1)]);
    assert w4.threads - {1} == map[];
    assert [] + [GameStateChange(IDLE, Some(BOB), None)] == [GameStateChange(IDLE, Some(BOB), None)];
    Next(w4, End(1), w5);
  }

  function AfterStranding(open: set<int>, newClients: seq<int>, clients: map<int, Client>): WorldState {
    WorldState(open, newClients, LobbyState(clients, OneRoom("", "", IDLE, [ANN], []), {}, map[]), map[], [], false)
  }

  // ann is pushed into the queue of a game that is over, and her room is cleared.
  lemma AnnStranded()
    requires Reached(During(map[1 := ANN], [], [GameStateChange(IDLE, Some(BOB), None)], map[1 := 1], map[], [GameSend(1, 1)]))
    ensures Reached(AfterStranding({1, 2}, [], map[2 := BOB]))
  {
    var report := GameStateChange(IDLE, Some(BOB), None);
    var w5 := During(map[1 := ANN], [], [report], map[1 := 1], map[], [GameSend(1, 1)]);
    var w6 := During(map[], [ANN], [report], map[], map[], []);
    assert w6.lobby.clients == w5.lobby.clients - {1} && w6.lobby.waiting == w5.lobby.waiting - {1};
    assert [] + [ANN] == [ANN];
    SendStep(w5, w6);
    assert [report][1..] == [];
    assert w6.lobby.paused - {1} == w6.lobby.paused;
    Next(w6, HandleChange(1), AfterStranding({1, 2}, [], map[2 := BOB]));
  }

  // Names are not unique in every run: after the stranding run a third client may take ann's name.
  lemma NamesCanClash()
    ensures exists w :: Reached(w) && !DistinctNames(w)
  {
    TwoInLobby();
    JoinTogether();
    BobSent();
    BobSits();
    BobLeaves();
    AnnStranded();
    var clients := map[2 := BOB, 3 := Client(3, "ann", 0)];
    ThirdClient(clients);
    var w := AfterStranding({1, 2, 3}, [], clients);
    assert w.lobby.rooms[1].input[0] == ANN && InQueue(w.lobby.rooms[1].input, 1, "ann");
    assert InMap(w, 3, "ann") && InRoom(w, 1, 1, "ann");
    assert Live(w, 3, "ann") && Live(w, 1, "ann");
  }

  lemma ThirdClient(clients: map<int, Client>)
    requires Reached(AfterStranding({1, 2}, [], map[2 := BOB])) && clients == map[2 := BOB, 3 := Client(3, "ann", 0)]
    ensures Reached(AfterStranding({1, 2, 3}, [], clients))
  {
    var w1 := AfterStranding({1, 2, 3}, [3], map[2 := BOB]);
    assert {1, 2} + {3} == {1, 2, 3} && [] + [3] == [3];
    Next(AfterStranding({1, 2}, [], map[2 := BOB]), Accept(3), w1);
    var w2 := AfterStranding({1, 2, 3}, [], map[2 := BOB][3 := Client(3, "", 0)]);
    ThirdTaken(w1, w2);
    ThirdNamed(w2, clients);
  }

  lemma ThirdTaken(w1: WorldState, w2: WorldState)
    requires w1 == AfterStranding({1, 2, 3}, [3], map[2 := BOB]) && Reached(w1)
    requires w2 == AfterStranding({1, 2, 3}, [], map[2 := BOB][3 := Client(3, "", 0)])
    ensures Reached(w2)
  {
    assert |w2.lobby.clients| == |w1.lobby.clients| + 1 == 2;
    assert [3][1..] == [] && w1.open - {} == w1.open;
    Next(w1, TakeNew, w2);
  }

  lemma ThirdNamed(w2: WorldState, clients: map<int, Client>)
    requires w2 == AfterStranding({1, 2, 3}, [], map[2 := BOB][3 := Client(3, "", 0)]) && Reached(w2)
    requires clients == map[2 := BOB, 3 := Client(3, "ann", 0)]
    ensures Reached(AfterStranding({1, 2, 3}, [], clients))
  {
    assert !NameInRooms(w2.lobby, "ann") && !NameInLobby(w2.lobby, 3, "ann");
    assert w2.lobby.clients[3 := Client(3, "ann", 0)] == clients;
    assert w2.open - {} == w2.open;
    Next(w2, Message(3, NameMessage("ann")), AfterStranding({1, 2, 3}, [], clients));
  }
}
