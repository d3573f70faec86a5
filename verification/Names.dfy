// User names: distinct among all live clients in every run in which no game ends while
// clients are still on their way to it.
module Names {
  import opened Options
  import opened ProtocolMessages
  import opened Rooms
  import opened Lobby
  import opened World
  import opened WorldIndex
  import opened Places

  predicate Has(c: Option<Client>, fd: int, name: string) {
    c.Some? && c.value.fd == fd && c.value.name == name
  }

  ghost predicate InMap(w: WorldState, fd: int, name: string) {
    fd in w.lobby.clients && w.lobby.clients[fd].name == name
  }

  ghost predicate InQueue(input: seq<Client>, fd: int, name: string) {
    exists i :: 0 <= i < |input| && Has(Some(input[i]), fd, name)
  }

  ghost predicate InReports(output: seq<GameStateChange>, fd: int, name: string) {
    exists i :: 0 <= i < |output| && (Has(output[i].client1, fd, name) || Has(output[i].client2, fd, name))
  }

  ghost predicate InThread(w: WorldState, id: int, fd: int, name: string) {
    id in w.threads && (Has(w.threads[id].seat1, fd, name) || Has(w.threads[id].seat2, fd, name))
  }

  // A client of the room's game: on its way in, seated, or on its way back.
  ghost predicate InRoom(w: WorldState, id: int, fd: int, name: string) {
    id in w.lobby.rooms
    && (InQueue(w.lobby.rooms[id].input, fd, name) || InThread(w, id, fd, name) || InReports(w.lobby.rooms[id].output, fd, name))
  }

  ghost predicate Live(w: WorldState, fd: int, name: string) {
    InMap(w, fd, name) || exists id :: InRoom(w, id, fd, name)
  }

  ghost predicate Registered(w: WorldState, id: int, name: string) {
    id in w.lobby.rooms && w.lobby.rooms[id].HasUsername(name)
  }

  ghost predicate DistinctNames(w: WorldState) {
    forall f, g, name :: name != "" && Live(w, f, name) && Live(w, g, name) ==> f == g
  }

  // A named client that stays in the lobby has a name no room has registered.
  ghost predicate IdleDisjoint(w: WorldState) {
    forall fd, name, id :: name != "" && InMap(w, fd, name) && !InSending(w, fd) ==> !Registered(w, id, name)
  }

  ghost predicate GameRegistered(w: WorldState) {
    && (forall id, fd, name :: InRoom(w, id, fd, name) ==> name != "" && Registered(w, id, name))
    && (forall i :: 0 <= i < |w.sending| && w.sending[i].fd in w.lobby.clients ==>
          Registered(w, w.sending[i].room, w.lobby.clients[w.sending[i].fd].name))
  }

  // No name is registered twice, in two rooms or in one.
  ghost predicate RoomsDisjoint(w: WorldState) {
    && (forall i, j, name :: name != "" && Registered(w, i, name) && Registered(w, j, name) ==> i == j)
    && forall id :: id in w.lobby.rooms && w.lobby.rooms[id].userA != "" ==> w.lobby.rooms[id].userA != w.lobby.rooms[id].userB
  }

  // Without a thread nobody is on the way to the game.
  ghost predicate NobodyStranded(w: WorldState) {
    && (forall id :: id in w.lobby.rooms && id !in w.threads ==> w.lobby.rooms[id].input == [])
    && (forall i :: 0 <= i < |w.sending| ==> w.sending[i].room in w.threads)
  }

  ghost predicate NamesOk(w: WorldState) {
    DistinctNames(w) && IdleDisjoint(w) && GameRegistered(w) && RoomsDisjoint(w) && NobodyStranded(w)
  }

  // The hypothesis of this module: a game ends only when its input queue is empty and nobody is being sent to it.
  ghost predicate Clean(w: WorldState, step: Step) {
    step.End? ==>
      && (step.room in w.lobby.rooms ==> w.lobby.rooms[step.room].input == [])
      && forall i :: 0 <= i < |w.sending| ==> w.sending[i].room != step.room
  }

  // ---- Steps of the lobby ----

  ghost predicate SameRooms(w: WorldState, w': WorldState) {
    w'.lobby.rooms == w.lobby.rooms && w'.threads == w.threads && w.sending == [] && w'.sending == []
  }

  lemma RoomsAgree(w: WorldState, w': WorldState)
    requires SameRooms(w, w')
    ensures forall id, fd, name :: InRoom(w', id, fd, name) <==> InRoom(w, id, fd, name)
    ensures forall id, name :: Registered(w', id, name) <==> Registered(w, id, name)
    ensures forall fd :: !InSending(w, fd) && !InSending(w', fd)
  {
  }

  // The map lost clients or gained unnamed ones, and nothing else matters to names.
  lemma MapShrinks(w: WorldState, w': WorldState)
    requires NamesOk(w) && SameRooms(w, w')
    requires forall fd, name :: name != "" && InMap(w', fd, name) ==> InMap(w, fd, name)
    ensures NamesOk(w')
  {
    RoomsAgree(w, w');
    forall fd, name | name != "" && Live(w', fd, name)
      ensures Live(w, fd, name)
    {
    }
  }

  lemma EnterUsernameNames(w: WorldState, fd: int, name: string)
    requires NamesOk(w) && LobbyFree(w) && fd in w.lobby.clients && !w.lobby.clients[fd].HasName()
    requires !NameInLobby(w.lobby, fd, name) && !NameInRooms(w.lobby, name)
    ensures NamesOk(Finish(w, EnterUsername(w.lobby, fd, name)))
  {
    var w' := Finish(w, EnterUsername(w.lobby, fd, name));
    RoomsAgree(w, w');
    assert forall f, n :: f != fd ==> (InMap(w', f, n) <==> InMap(w, f, n));
    assert forall id :: !Registered(w, id, name);
    forall f, g, n | n != "" && Live(w', f, n) && Live(w', g, n)
      ensures f == g
    {
      if n == name {
        assert forall id, h :: !InRoom(w, id, h, name);
        assert forall h :: InMap(w', h, name) ==> h == fd;
      } else {
        assert Live(w, f, n) && Live(w, g, n);
      }
    }
  }

  // Starting a game registers two idle names in a room that had none.
  lemma StartNames(w: WorldState, id: int, fd: int, other: int)
    requires NamesOk(w) && LobbyOk(w) && LobbyFree(w)
    requires fd in w.lobby.clients && w.lobby.clients[fd].HasName()
    requires other in w.lobby.clients && w.lobby.clients[other].HasName() && other != fd
    requires id in w.lobby.rooms && w.lobby.rooms[id].state == IDLE
    ensures var o := StartRoom(w.lobby, id, w.lobby.clients[fd].name, w.lobby.clients[other].name);
      NamesOk(Finish(w, o.(start := Some(GameStart(id, fd, other)))))
  {
    var n1, n2 := w.lobby.clients[fd].name, w.lobby.clients[other].name;
    var w' := Finish(w, StartRoom(w.lobby, id, n1, n2).(start := Some(GameStart(id, fd, other))));
    var room := w.lobby.rooms[id];
    assert RoomOk(room, id in w.threads);
    assert w'.lobby.rooms == w.lobby.rooms[id := room.(state := RUNNING, userA := n1, userB := n2)];
    assert w'.lobby.clients == w.lobby.clients;
    assert room.input == [] && room.output == [];
    assert w'.sending[0].fd == fd && w'.sending[1].fd == other;
    assert InMap(w, fd, n1) && InMap(w, other, n2);
    assert Live(w, fd, n1) && Live(w, other, n2) && n1 != n2;
    forall i, f, name
      ensures InRoom(w', i, f, name) <==> InRoom(w, i, f, name)
    {
    }
    forall i, name | name != ""
      ensures Registered(w', i, name) <==> if i == id then name == n1 || name == n2 else Registered(w, i, name)
    {
    }
    forall f, name | Live(w', f, name)
      ensures Live(w, f, name)
    {
    }
    forall f, name, i | name != "" && InMap(w', f, name) && !InSending(w', f)
      ensures !Registered(w', i, name)
    {
      assert InMap(w, f, name) && !InSending(w, f);
      assert Live(w, f, name) && Live(w, fd, n1) && Live(w, other, n2);
      assert !InSending(w, f) && !Registered(w, i, name);
    }
    assert !InSending(w, fd) && !InSending(w, other);
  }

  lemma DisconnectNames(w: WorldState, fd: int)
    requires NamesOk(w) && LobbyFree(w)
    ensures NamesOk(Finish(w, Disconnect(w.lobby, fd)))
  {
    MapShrinks(w, Finish(w, Disconnect(w.lobby, fd)));
  }

  lemma DenyNames(w: WorldState, fd: int)
    requires NamesOk(w) && LobbyFree(w) && fd in w.lobby.clients
    ensures NamesOk(Finish(w, Deny(w.lobby, fd)))
  {
    MapShrinks(w, Finish(w, Deny(w.lobby, fd)));
  }

  lemma JoinNames(w: WorldState, fd: int, gameId: Option<int>)
    requires NamesOk(w) && LobbyOk(w) && LobbyFree(w) && fd in w.lobby.clients && w.lobby.clients[fd].HasName()
    requires w.lobby.waiting.Keys <= w.lobby.clients.Keys
    ensures NamesOk(Finish(w, Join(w.lobby, fd, gameId)))
  {
    var l := w.lobby;
    DenyNames(w, fd);
    JoinKeeps(w, fd, gameId);
    if gameId.Some? && gameId.value in l.rooms && l.rooms[gameId.value].state == IDLE {
      if !SomeoneWaits(l, gameId.value) {
        MapShrinks(w, Finish(w, Join(l, fd, gameId)));
      } else {
        var other := Waiter(l, gameId.value);
        if other != fd { StartNames(w, gameId.value, fd, other); }
      }
    }
  }

  lemma MessageNames(w: WorldState, fd: int, msg: ProtocolData)
    requires NamesOk(w) && LobbyOk(w) && LobbyFree(w) && fd in w.lobby.clients
    requires w.lobby.waiting.Keys <= w.lobby.clients.Keys
    ensures NamesOk(Finish(w, Process(w.lobby, fd, msg)))
  {
    DisconnectNames(w, fd);
    DenyNames(w, fd);
    if msg.methodName == JOIN_GAME && msg.HasField("game_id") && w.lobby.clients[fd].HasName() {
      JoinNames(w, fd, Stoi(msg.GetField("game_id")));
    } else if msg.methodName == ENTER_USERNAME && msg.HasField("username") && !w.lobby.clients[fd].HasName() {
      var name := msg.GetField("username");
      if !NameInLobby(w.lobby, fd, name) && !NameInRooms(w.lobby, name) { EnterUsernameNames(w, fd, name); }
    } else if msg.methodName == GET_ROOM_LIST && w.lobby.clients[fd].HasName() {
      MapShrinks(w, Finish(w, Process(w.lobby, fd, msg)));
    }
  }

  lemma QueuePush(q: seq<Client>, c: Client)
    ensures forall f, n :: InQueue(q + [c], f, n) <==> InQueue(q, f, n) || Has(Some(c), f, n)
  {
    forall f, n
      ensures InQueue(q + [c], f, n) <==> InQueue(q, f, n) || Has(Some(c), f, n)
    {
      assert (q + [c])[|q|] == c;
      if InQueue(q, f, n) {
        var i :| 0 <= i < |q| && Has(Some(q[i]), f, n);
        assert (q + [c])[i] == q[i];
      }
    }
  }

  // The client that is sent is the only one to enter a room.
  lemma SendRooms(w: WorldState)
    requires LobbyOk(w) && w.sending != []
    ensures var fd, id := w.sending[0].fd, w.sending[0].room;
      forall i, f, n :: InRoom(w.(lobby := SendClient(w.lobby, id, fd), sending := w.sending[1..]), i, f, n) <==>
        InRoom(w, i, f, n) || (i == id && f == fd && n == w.lobby.clients[fd].name)
  {
    QueuePush(w.lobby.rooms[w.sending[0].room].input, w.lobby.clients[w.sending[0].fd]);
  }

  lemma SendNames(w: WorldState)
    requires NamesOk(w) && LobbyOk(w) && w.sending != []
    ensures NamesOk(w.(lobby := SendClient(w.lobby, w.sending[0].room, w.sending[0].fd), sending := w.sending[1..]))
  {
    var fd, id := w.sending[0].fd, w.sending[0].room;
    var w' := w.(lobby := SendClient(w.lobby, id, fd), sending := w.sending[1..]);
    var c := w.lobby.clients[fd];
    assert InMap(w, fd, c.name) && Registered(w, id, c.name);
    SendRooms(w);
    assert forall i, n :: Registered(w', i, n) <==> Registered(w, i, n);
    forall f, n | Live(w', f, n)
      ensures Live(w, f, n)
    {
    }
    forall f | InSending(w, f) && f != fd
      ensures InSending(w', f)
    {
      var i :| 0 <= i < |w.sending| && w.sending[i].fd == f;
      assert w'.sending[i - 1].fd == f;
    }
  }

  // The head report of a room was handled: its clients moved to the lobby.
  lemma ReportRooms(w: WorldState, id: int)
    requires LobbyOk(w) && LobbyFree(w) && id in w.lobby.rooms && w.lobby.rooms[id].output != []
    ensures var w' := w.(lobby := StateChange(w.lobby, id));
      && (forall i, f, n :: InRoom(w', i, f, n) ==> InRoom(w, i, f, n))
      && (forall f, n :: InMap(w', f, n) ==> InMap(w, f, n) || InRoom(w, id, f, n))
  {
    var w' := w.(lobby := StateChange(w.lobby, id));
    var room := w.lobby.rooms[id];
    HeadReport(room, id in w.threads);
    forall f, n | InReports(room.output[1..], f, n)
      ensures InReports(room.output, f, n)
    {
      var i :| 0 <= i < |room.output[1..]| && (Has(room.output[1..][i].client1, f, n) || Has(room.output[1..][i].client2, f, n));
      assert room.output[i + 1] == room.output[1..][i];
    }
    forall f, n | InMap(w', f, n)
      ensures InMap(w, f, n) || InRoom(w, id, f, n)
    {
      if !InMap(w, f, n) {
        assert Has(room.output[0].client1, f, n) || Has(room.output[0].client2, f, n);
      }
    }
  }

  lemma HandleIdleNames(w: WorldState, id: int)
    requires NamesOk(w) && LobbyOk(w) && LobbyFree(w) && id in w.lobby.rooms && w.lobby.rooms[id].output != []
    requires w.lobby.rooms[id].output[0].newState == IDLE
    ensures NamesOk(w.(lobby := StateChange(w.lobby, id)))
  {
    var w' := w.(lobby := StateChange(w.lobby, id));
    var room := w.lobby.rooms[id];
    HeadReport(room, id in w.threads);
    assert room.input == [] && room.output[1..] == [];
    assert w'.lobby.rooms == w.lobby.rooms[id := Room("", "", IDLE, [], [])];
    ReportRooms(w, id);
    forall i, f, n
      ensures InRoom(w', i, f, n) ==> i != id
    {
    }
    assert forall i, n :: n != "" ==> (Registered(w', i, n) <==> i != id && Registered(w, i, n));
    forall f, n | Live(w', f, n)
      ensures Live(w, f, n)
    {
    }
  }

  lemma HandlePausedNames(w: WorldState, id: int)
    requires NamesOk(w) && LobbyOk(w) && LobbyFree(w) && id in w.lobby.rooms && w.lobby.rooms[id].output != []
    requires w.lobby.rooms[id].output[0].newState != IDLE
    ensures NamesOk(w.(lobby := StateChange(w.lobby, id)))
  {
    HeadReport(w.lobby.rooms[id], id in w.threads);
    ReportRooms(w, id);
    GameShrinks(w, w.(lobby := StateChange(w.lobby, id)));
  }

  lemma HandleChangeNames(w: WorldState, id: int)
    requires NamesOk(w) && LobbyOk(w) && LobbyFree(w) && id in w.lobby.rooms && w.lobby.rooms[id].output != []
    ensures NamesOk(w.(lobby := StateChange(w.lobby, id)))
  {
    if w.lobby.rooms[id].output[0].newState == IDLE { HandleIdleNames(w, id); } else { HandlePausedNames(w, id); }
  }

  // Clients of games moved within their room or left, and the lobby's map is untouched.
  lemma GameShrinks(w: WorldState, w': WorldState)
    requires NamesOk(w) && w'.lobby.clients == w.lobby.clients && w'.sending == w.sending
    requires w'.lobby.rooms.Keys == w.lobby.rooms.Keys
    requires forall id :: id in w.lobby.rooms ==>
               w'.lobby.rooms[id].userA == w.lobby.rooms[id].userA && w'.lobby.rooms[id].userB == w.lobby.rooms[id].userB
    requires forall id, f, n :: InRoom(w', id, f, n) ==> InRoom(w, id, f, n)
    requires NobodyStranded(w')
    ensures NamesOk(w')
  {
    assert forall id, n :: Registered(w', id, n) <==> Registered(w, id, n);
    assert forall f :: InSending(w', f) <==> InSending(w, f);
    forall f, n | Live(w', f, n)
      ensures Live(w, f, n)
    {
    }
  }

  lemma QueuePop(q: seq<Client>)
    requires q != []
    ensures forall f, n :: InQueue(q[1..], f, n) ==> InQueue(q, f, n)
    ensures forall f, n :: Has(Some(q[0]), f, n) ==> InQueue(q, f, n)
  {
    forall f, n | InQueue(q[1..], f, n)
      ensures InQueue(q, f, n)
    {
      var i :| 0 <= i < |q[1..]| && Has(Some(q[1..][i]), f, n);
      assert q[i + 1] == q[1..][i];
    }
  }

  lemma ReportPush(q: seq<GameStateChange>, x: GameStateChange)
    ensures forall f, n :: InReports(q + [x], f, n) ==> InReports(q, f, n) || Has(x.client1, f, n) || Has(x.client2, f, n)
  {
    forall f, n | InReports(q + [x], f, n)
      ensures InReports(q, f, n) || Has(x.client1, f, n) || Has(x.client2, f, n)
    {
      var i :| 0 <= i < |q + [x]| && (Has((q + [x])[i].client1, f, n) || Has((q + [x])[i].client2, f, n));
      if i < |q| { assert (q + [x])[i] == q[i]; }
    }
  }

  // No step of a game thread brings a client into a room, clean or not.
  lemma GameStepRooms(maxPlayerCount: nat, w: WorldState, step: Step)
    requires Enabled(w, step) && (step.Sit? || step.Leave? || step.Refuse? || step.Stop? || step.End?)
    ensures forall i, f, n :: InRoom(Apply(maxPlayerCount, w, step), i, f, n) ==> InRoom(w, i, f, n)
  {
    var room := w.lobby.rooms[step.room];
    if step.Sit? { QueuePop(room.input); }
    ReportPush(room.output, GameStateChange(PAUSED, None, None));
    ReportPush(room.output, LastChange(w.threads[step.room]));
  }

  lemma GameStepNames(maxPlayerCount: nat, w: WorldState, step: Step)
    requires NamesOk(w) && Enabled(w, step) && (step.Sit? || step.Leave? || step.Refuse? || step.Stop?)
    ensures NamesOk(Apply(maxPlayerCount, w, step))
  {
    GameStepRooms(maxPlayerCount, w, step);
    GameShrinks(w, Apply(maxPlayerCount, w, step));
  }

  lemma EndNames(maxPlayerCount: nat, w: WorldState, id: int)
    requires NamesOk(w) && Enabled(w, End(id)) && Clean(w, End(id))
    ensures NamesOk(Apply(maxPlayerCount, w, End(id)))
  {
    GameStepRooms(maxPlayerCount, w, End(id));
    GameShrinks(w, Apply(maxPlayerCount, w, End(id)));
  }

  // ---- Every clean run ----

  lemma AcceptNames(maxPlayerCount: nat, w: WorldState, fd: int)
    requires NamesOk(w) && Enabled(w, Accept(fd))
    ensures NamesOk(Apply(maxPlayerCount, w, Accept(fd)))
  {
    GameShrinks(w, Apply(maxPlayerCount, w, Accept(fd)));
  }

  lemma TakeNewNames(maxPlayerCount: nat, w: WorldState)
    requires NamesOk(w) && Enabled(w, TakeNew)
    ensures NamesOk(Apply(maxPlayerCount, w, TakeNew))
  {
    MapShrinks(w, Apply(maxPlayerCount, w, TakeNew));
  }

  lemma StepNames(maxPlayerCount: nat, w: WorldState, step: Step)
    requires NamesOk(w) && Inv(w) && Enabled(w, step) && Clean(w, step)
    ensures NamesOk(Apply(maxPlayerCount, w, step))
  {
    match step
    case Accept(fd) => AcceptNames(maxPlayerCount, w, fd);
    case TakeNew => TakeNewNames(maxPlayerCount, w);
    case Message(fd, msg) => MessageNames(w, fd, msg);
    case Drop(fd) => DisconnectNames(w, fd);
    case Send => SendNames(w);
    case HandleChange(id) => HandleChangeNames(w, id);
    case Sit(id) => GameStepNames(maxPlayerCount, w, step);
    case Leave(id, fd) => GameStepNames(maxPlayerCount, w, step);
    case Refuse(id, fd) => GameStepNames(maxPlayerCount, w, step);
    case Stop(id) => GameStepNames(maxPlayerCount, w, step);
    case End(id) => EndNames(maxPlayerCount, w, id);
  }

  ghost predicate CleanRun(maxPlayerCount: nat, w: WorldState, steps: seq<Step>)
    requires IsRun(maxPlayerCount, w, steps)
    decreases |steps|
  {
    steps == [] || (Clean(w, steps[0]) && CleanRun(maxPlayerCount, Apply(maxPlayerCount, w, steps[0]), steps[1..]))
  }

  lemma {:induction false} RunNames(maxPlayerCount: nat, w: WorldState, steps: seq<Step>)
    requires NamesOk(w) && Inv(w) && IsRun(maxPlayerCount, w, steps) && CleanRun(maxPlayerCount, w, steps)
    ensures NamesOk(Final(maxPlayerCount, w, steps))
    decreases |steps|
  {
    if steps != [] {
      StepNames(maxPlayerCount, w, steps[0]);
      StepKeeps(maxPlayerCount, w, steps[0]);
      RunNames(maxPlayerCount, Apply(maxPlayerCount, w, steps[0]), steps[1..]);
    }
  }

  // From the start of the server: no two live clients share a name, idle names and registered
  // names are apart, and a game's clients carry names registered in its room.
  lemma NameUniqueness(maxPlayerCount: nat, roomCount: nat, steps: seq<Step>)
    requires IsRun(maxPlayerCount, Start(roomCount), steps) && CleanRun(maxPlayerCount, Start(roomCount), steps)
    ensures NamesOk(Final(maxPlayerCount, Start(roomCount), steps))
  {
    StartOk(roomCount);
    RunNames(maxPlayerCount, Start(roomCount), steps);
  }
}
