// The lobby thread, the accept loop and the game threads as one transition system. Handlers of
// the lobby run one at a time; a game thread may move between any two of their queue operations.
module World {
  import opened ProtocolMessages
  import opened Rooms
  import opened Lobby

  datatype WorldState = WorldState(
    open: set<int>,              // the connections the process holds open
    newClients: seq<int>,        // pushed by the accept loop, not yet taken by the lobby
    lobby: LobbyState,
    threads: map<int, Thread>,   // the live game thread of each room
    sending: seq<GameSend>,      // the pushes the running _joinGameRoom still has to do
    crashed: bool)               // an exception left the lobby's handler

  datatype GameSend = GameSend(room: int, fd: int)

  datatype Step =
    | Accept(fd: int)
    | TakeNew
    | Message(fd: int, msg: ProtocolData)
    | Drop(fd: int)
    | Send
    | HandleChange(room: int)
    | Sit(room: int)
    | Leave(room: int, fd: int)
    | Refuse(room: int, fd: int)
    | Stop(room: int)
    | End(room: int)

  function IO(w: WorldState, id: int): GameIO
    requires id in w.threads && id in w.lobby.rooms
  {
    GameIO(w.threads[id], w.lobby.rooms[id].input, w.lobby.rooms[id].output)
  }

  function WithIO(w: WorldState, id: int, io: GameIO): WorldState
    requires id in w.lobby.rooms
  {
    var room := w.lobby.rooms[id].(input := io.input, output := io.output);
    w.(threads := w.threads[id := io.thread], lobby := w.lobby.(rooms := w.lobby.rooms[id := room]))
  }

  predicate LobbyFree(w: WorldState) {
    w.sending == [] && !w.crashed
  }

  // A handler needs its client in the map (at() throws otherwise), and every waiting client is there.
  predicate Enabled(w: WorldState, step: Step) {
    match step
    case Accept(fd) => fd !in w.open
    case TakeNew => LobbyFree(w) && w.newClients != []
    case Message(fd, _) => LobbyFree(w) && fd in w.lobby.clients && w.lobby.waiting.Keys <= w.lobby.clients.Keys
    case Drop(fd) => LobbyFree(w) && fd in w.lobby.clients
    case Send => w.sending != [] && w.sending[0].room in w.lobby.rooms && w.sending[0].fd in w.lobby.clients
    case HandleChange(id) => LobbyFree(w) && id in w.lobby.rooms && w.lobby.rooms[id].output != []
    case Sit(id) => id in w.threads && id in w.lobby.rooms && w.lobby.rooms[id].input != []
    case Leave(id, _) => id in w.threads && id in w.lobby.rooms
    case Refuse(id, _) => id in w.threads && id in w.lobby.rooms
    case Stop(id) => id in w.threads && id in w.lobby.rooms
    case End(id) => id in w.threads && id in w.lobby.rooms && !w.threads[id].running
  }

  function Finish(w: WorldState, o: Outcome): WorldState {
    var w' := w.(open := w.open - o.closed, lobby := o.lobby, crashed := o.threw);
    match o.start
    case None => w'
    case Some(g) =>
      w'.(threads := w.threads[g.room := NEW_THREAD], sending := [GameSend(g.room, g.first), GameSend(g.room, g.second)])
  }

  ghost function Apply(maxPlayerCount: nat, w: WorldState, step: Step): WorldState
    requires Enabled(w, step)
  {
    match step
    case Accept(fd) => w.(open := w.open + {fd}, newClients := w.newClients + [fd])
    case TakeNew =>
      Finish(w.(newClients := w.newClients[1..]), TakeNewClient(w.lobby, w.newClients[0], maxPlayerCount))
    case Message(fd, msg) => Finish(w, Process(w.lobby, fd, msg))
    case Drop(fd) => Finish(w, Disconnect(w.lobby, fd))
    case Send => w.(lobby := SendClient(w.lobby, w.sending[0].room, w.sending[0].fd), sending := w.sending[1..])
    case HandleChange(id) => w.(lobby := StateChange(w.lobby, id))
    case Sit(id) => WithIO(w, id, TakeSeat(IO(w, id)))
    case Leave(id, fd) =>
      var t := w.threads[id];
      var gone := if SeatedAt(t.seat1, fd) || SeatedAt(t.seat2, fd) then {fd} else {};
      WithIO(w, id, LeaveSeat(IO(w, id), fd)).(open := w.open - gone)
    case Refuse(id, fd) => WithIO(w, id, RefuseSeat(IO(w, id), fd))
    case Stop(id) => WithIO(w, id, StopGame(IO(w, id)))
    case End(id) =>
      var room := w.lobby.rooms[id];
      var last := room.(output := room.output + [LastChange(w.threads[id])]);
      w.(threads := w.threads - {id}, lobby := w.lobby.(rooms := w.lobby.rooms[id := last]))
  }

  function NewRooms(roomCount: nat): (rooms: map<int, Room>)
    ensures forall id :: id in rooms <==> 1 <= id <= roomCount
    ensures forall id :: id in rooms ==> rooms[id] == Room("", "", IDLE, [], [])
  {
    if roomCount == 0 then map[] else NewRooms(roomCount - 1)[roomCount := Room("", "", IDLE, [], [])]
  }

  // The server with rooms 1..roomCount before the first connection.
  function Start(roomCount: nat): WorldState {
    WorldState({}, [], LobbyState(map[], NewRooms(roomCount), {}, map[]), map[], [], false)
  }

  ghost predicate IsRun(maxPlayerCount: nat, w: WorldState, steps: seq<Step>)
    decreases |steps|
  {
    steps == [] || (Enabled(w, steps[0]) && IsRun(maxPlayerCount, Apply(maxPlayerCount, w, steps[0]), steps[1..]))
  }

  ghost function Final(maxPlayerCount: nat, w: WorldState, steps: seq<Step>): WorldState
    requires IsRun(maxPlayerCount, w, steps)
    decreases |steps|
  {
    if steps == [] then w else Final(maxPlayerCount, Apply(maxPlayerCount, w, steps[0]), steps[1..])
  }

  lemma {:induction false} FinalAppend(maxPlayerCount: nat, w: WorldState, s: seq<Step>, t: seq<Step>)
    requires IsRun(maxPlayerCount, w, s) && IsRun(maxPlayerCount, Final(maxPlayerCount, w, s), t)
    ensures IsRun(maxPlayerCount, w, s + t)
    ensures Final(maxPlayerCount, w, s + t) == Final(maxPlayerCount, Final(maxPlayerCount, w, s), t)
    decreases |s|
  {
    if s == [] {
      assert s + t == t;
    } else {
      var w1 := Apply(maxPlayerCount, w, s[0]);
      FinalAppend(maxPlayerCount, w1, s[1..], t);
      assert (s + t)[0] == s[0] && (s + t)[1..] == s[1..] + t;
      assert Final(maxPlayerCount, w, s + t) == Final(maxPlayerCount, w1, s[1..] + t);
    }
  }
}

// What every run keeps of the rooms' protocol and of the lobby's index maps.
module WorldIndex {
  import opened Options
  import opened ProtocolMessages
  import opened Rooms
  import opened Lobby
  import opened World

  ghost predicate OnlyPaused(output: seq<GameStateChange>) {
    forall i :: 0 <= i < |output| ==> output[i] == GameStateChange(PAUSED, None, None)
  }

  // IDLE and empty; or live with only PAUSED reports pending; or ended with one final IDLE report last.
  ghost predicate RoomOk(room: Room, live: bool) {
    if room.state == IDLE then
      !live && room.output == [] && room.userA == "" && room.userB == ""
    else
      && room.userA != "" && room.userB != ""
      && if live then OnlyPaused(room.output)
         else room.output != [] && OnlyPaused(room.output[..|room.output| - 1]) && room.output[|room.output| - 1].newState == IDLE
  }

  ghost predicate RoomsOk(w: WorldState) {
    && w.threads.Keys <= w.lobby.rooms.Keys
    && (forall id :: id in w.lobby.rooms ==> RoomOk(w.lobby.rooms[id], id in w.threads))
    && !w.crashed
  }

  // The clients of a _joinGameRoom that has started the thread but not finished its pushes.
  ghost predicate InSending(w: WorldState, fd: int) {
    exists i :: 0 <= i < |w.sending| && w.sending[i].fd == fd
  }

  ghost predicate SendingOk(w: WorldState) {
    && (forall i :: 0 <= i < |w.sending| ==>
          && w.sending[i].room in w.lobby.rooms && w.lobby.rooms[w.sending[i].room].state != IDLE
          && w.sending[i].fd in w.lobby.clients && w.lobby.clients[w.sending[i].fd].HasName())
    && (forall i, j :: 0 <= i < j < |w.sending| ==> w.sending[i].fd != w.sending[j].fd)
  }

  // Every waiting client is a named client of the lobby, waits for an IDLE room, and waits alone for it.
  ghost predicate WaitingOk(w: WorldState) {
    && (forall fd :: fd in w.lobby.waiting ==>
          && fd in w.lobby.clients && w.lobby.clients[fd].HasName()
          && w.lobby.waiting[fd] in w.lobby.rooms
          && (w.lobby.rooms[w.lobby.waiting[fd]].state == IDLE || InSending(w, fd)))
    && (forall f, g :: f in w.lobby.waiting && g in w.lobby.waiting && w.lobby.waiting[f] == w.lobby.waiting[g] ==> f == g)
  }

  ghost predicate IndexOk(w: WorldState) {
    && (forall fd :: fd in w.lobby.clients ==> w.lobby.clients[fd].fd == fd)
    && (forall id :: id in w.lobby.paused <==> id in w.lobby.rooms && w.lobby.rooms[id].state == PAUSED)
    && SendingOk(w) && WaitingOk(w)
  }

  ghost predicate LobbyOk(w: WorldState) {
    RoomsOk(w) && IndexOk(w)
  }

  // No client in a report of this room is still in the lobby's map.
  ghost predicate ReturnsNew(w: WorldState, id: int) {
    id in w.lobby.rooms && w.lobby.rooms[id].output != [] ==>
      var change := w.lobby.rooms[id].output[0];
      && (change.client1.Some? ==> change.client1.value.fd !in w.lobby.clients)
      && (change.client2.Some? ==> change.client2.value.fd !in w.lobby.clients)
  }

  lemma WaitingInMap(w: WorldState)
    requires WaitingOk(w)
    ensures w.lobby.waiting.Keys <= w.lobby.clients.Keys
  {
    forall fd | fd in w.lobby.waiting.Keys
      ensures fd in w.lobby.clients.Keys
    {
      assert fd in w.lobby.waiting;
    }
  }

  lemma DisconnectKeeps(w: WorldState, fd: int)
    requires LobbyOk(w) && LobbyFree(w)
    ensures LobbyOk(Finish(w, Disconnect(w.lobby, fd)))
  {
  }

  lemma DenyKeeps(w: WorldState, fd: int)
    requires LobbyOk(w) && LobbyFree(w) && fd in w.lobby.clients
    ensures LobbyOk(Finish(w, Deny(w.lobby, fd)))
  {
    if w.lobby.clients[fd].denied >= MAX_REQ_DENIED_CNT { DisconnectKeeps(w, fd); }
  }

  lemma TakeNewKeeps(w: WorldState, maxPlayerCount: nat)
    requires LobbyOk(w) && LobbyFree(w) && w.newClients != [] && w.newClients[0] !in w.lobby.clients
    ensures LobbyOk(Finish(w.(newClients := w.newClients[1..]), TakeNewClient(w.lobby, w.newClients[0], maxPlayerCount)))
  {
  }

  lemma EnterUsernameKeeps(w: WorldState, fd: int, name: string)
    requires LobbyOk(w) && LobbyFree(w) && fd in w.lobby.clients && !w.lobby.clients[fd].HasName()
    ensures LobbyOk(Finish(w, EnterUsername(w.lobby, fd, name)))
  {
    DenyKeeps(w, fd);
  }

  // A room that is joined is IDLE, so it has no thread, and both users can be added.
  lemma JoinKeeps(w: WorldState, fd: int, gameId: Option<int>)
    requires LobbyOk(w) && LobbyFree(w) && fd in w.lobby.clients && w.lobby.clients[fd].HasName()
    requires w.lobby.waiting.Keys <= w.lobby.clients.Keys
    ensures LobbyOk(Finish(w, Join(w.lobby, fd, gameId)))
    ensures var o := Join(w.lobby, fd, gameId);
      !o.threw && (o.start.Some? ==> o.start.value.room !in w.threads)
  {
    var l := w.lobby;
    if gameId.None? || gameId.value !in l.rooms || l.rooms[gameId.value].state != IDLE {
      DenyKeeps(w, fd);
    } else if !SomeoneWaits(l, gameId.value) {
    } else {
      var other := Waiter(l, gameId.value);
      if other == fd {
        DenyKeeps(w, fd);
      } else {
        StartKeeps(w, fd, other, gameId.value);
      }
    }
  }

  // Both users of an IDLE room can be added.
  lemma StartShape(l: LobbyState, id: int, name1: string, name2: string)
    requires id in l.rooms && l.rooms[id].userA == "" && l.rooms[id].userB == "" && name1 != "" && name2 != ""
    ensures StartRoom(l, id, name1, name2) ==
            Quiet(l.(rooms := l.rooms[id := l.rooms[id].(state := RUNNING, userA := name1, userB := name2)], paused := l.paused - {id}))
  {
  }

  lemma StartKeeps(w: WorldState, fd: int, other: int, id: int)
    requires LobbyOk(w) && LobbyFree(w) && fd in w.lobby.clients && w.lobby.clients[fd].HasName()
    requires id in w.lobby.rooms && w.lobby.rooms[id].state == IDLE
    requires other in w.lobby.waiting && w.lobby.waiting[other] == id && other != fd
    ensures var o := StartRoom(w.lobby, id, w.lobby.clients[fd].name, w.lobby.clients[other].name);
      !o.threw && LobbyOk(Finish(w, o.(start := Some(GameStart(id, fd, other)))))
  {
    assert RoomOk(w.lobby.rooms[id], id in w.threads);
    StartShape(w.lobby, id, w.lobby.clients[fd].name, w.lobby.clients[other].name);
    var o := StartRoom(w.lobby, id, w.lobby.clients[fd].name, w.lobby.clients[other].name);
    var w' := Finish(w, o.(start := Some(GameStart(id, fd, other))));
    assert w'.sending[0].fd == fd && w'.sending[1].fd == other;
    assert forall f :: f in w.lobby.waiting && w.lobby.waiting[f] == id ==> f == other;
  }

  lemma JoinMessageKeeps(w: WorldState, fd: int, msg: ProtocolData)
    requires LobbyOk(w) && LobbyFree(w) && fd in w.lobby.clients && w.lobby.waiting.Keys <= w.lobby.clients.Keys
    requires msg.methodName == JOIN_GAME && msg.HasField("game_id") && w.lobby.clients[fd].HasName()
    ensures var o := Process(w.lobby, fd, msg);
      LobbyOk(Finish(w, o)) && !o.threw && (o.start.Some? ==> o.start.value.room !in w.threads)
  {
    JoinKeeps(w, fd, Stoi(msg.GetField("game_id")));
  }

  // Every other message drops or denies its sender, names it, or changes nothing.
  lemma OtherMessageKeeps(w: WorldState, fd: int, msg: ProtocolData)
    requires LobbyOk(w) && LobbyFree(w) && fd in w.lobby.clients && w.lobby.waiting.Keys <= w.lobby.clients.Keys
    requires !(msg.methodName == JOIN_GAME && msg.HasField("game_id") && w.lobby.clients[fd].HasName())
    ensures var o := Process(w.lobby, fd, msg); LobbyOk(Finish(w, o)) && !o.threw && o.start == None
  {
    var o := Process(w.lobby, fd, msg);
    if o == Quiet(w.lobby) {
      assert w.open - {} == w.open;
    } else if o == Disconnect(w.lobby, fd) {
      DisconnectKeeps(w, fd);
    } else if o == Deny(w.lobby, fd) {
      DenyKeeps(w, fd);
    } else {
      EnterUsernameKeeps(w, fd, msg.GetField("username"));
    }
  }

  lemma MessageKeeps(w: WorldState, fd: int, msg: ProtocolData)
    requires LobbyOk(w) && LobbyFree(w) && fd in w.lobby.clients
    requires w.lobby.waiting.Keys <= w.lobby.clients.Keys
    ensures LobbyOk(Finish(w, Process(w.lobby, fd, msg)))
    ensures var o := Process(w.lobby, fd, msg); !o.threw && (o.start.Some? ==> o.start.value.room !in w.threads)
  {
    if msg.methodName == JOIN_GAME && msg.HasField("game_id") && w.lobby.clients[fd].HasName() {
      JoinMessageKeeps(w, fd, msg);
    } else {
      OtherMessageKeeps(w, fd, msg);
    }
  }

  lemma SendingShrinks(w: WorldState, w': WorldState)
    requires w.sending != [] && w'.sending == w.sending[1..]
    ensures forall f :: InSending(w, f) && f != w.sending[0].fd ==> InSending(w', f)
  {
    forall f | InSending(w, f) && f != w.sending[0].fd
      ensures InSending(w', f)
    {
      var i :| 0 <= i < |w.sending| && w.sending[i].fd == f;
      assert w'.sending[i - 1].fd == f;
    }
  }

  lemma SendKeepsIndex(w: WorldState)
    requires LobbyOk(w) && w.sending != []
    ensures IndexOk(w.(lobby := SendClient(w.lobby, w.sending[0].room, w.sending[0].fd), sending := w.sending[1..]))
  {
    var w' := w.(lobby := SendClient(w.lobby, w.sending[0].room, w.sending[0].fd), sending := w.sending[1..]);
    SendingShrinks(w, w');
    assert SendingOk(w') && WaitingOk(w');
  }

  lemma SendKeeps(w: WorldState)
    requires LobbyOk(w) && w.sending != []
    ensures LobbyOk(w.(lobby := SendClient(w.lobby, w.sending[0].room, w.sending[0].fd), sending := w.sending[1..]))
  {
    SendKeepsIndex(w);
  }

  // What the head of a non-empty report queue can be.
  lemma HeadReport(room: Room, live: bool)
    requires RoomOk(room, live) && room.output != []
    ensures room.state != IDLE
    ensures room.output[0].newState == IDLE ==> !live && |room.output| == 1
    ensures room.output[0].newState != IDLE ==> room.output[0] == GameStateChange(PAUSED, None, None)
    ensures room.output[0].newState != IDLE ==>
              RoomOk(room.(output := room.output[1..], state := PAUSED), live)
  {
    var rest := room.output[1..];
    if |room.output| > 1 {
      assert room.output[0] == room.output[..|room.output| - 1][0];
      assert forall i :: 0 <= i < |rest| - 1 ==> rest[i] == room.output[..|room.output| - 1][i + 1];
    }
  }

  lemma HandlePausedKeeps(w: WorldState, id: int)
    requires LobbyOk(w) && LobbyFree(w) && id in w.lobby.rooms && w.lobby.rooms[id].output != []
    requires w.lobby.rooms[id].output[0].newState != IDLE
    ensures LobbyOk(w.(lobby := StateChange(w.lobby, id)))
  {
    HeadReport(w.lobby.rooms[id], id in w.threads);
  }

  // The lobby after the one report of an ended game: the room is empty again and its clients are back.
  lemma IdleReport(w: WorldState, id: int)
    requires LobbyOk(w) && LobbyFree(w) && id in w.lobby.rooms && w.lobby.rooms[id].output != []
    requires w.lobby.rooms[id].output[0].newState == IDLE
    ensures var l, room, change := w.lobby, w.lobby.rooms[id], w.lobby.rooms[id].output[0];
      StateChange(l, id) == LobbyState(AddBack(AddBack(l, change.client1), change.client2).clients,
                                       l.rooms[id := Room("", "", IDLE, room.input, [])], l.paused - {id}, l.waiting)
    ensures id !in w.threads && w.lobby.rooms[id].state != IDLE
  {
    HeadReport(w.lobby.rooms[id], id in w.threads);
    assert w.lobby.rooms[id].output[1..] == [];
  }

  lemma HandleIdleKeeps(w: WorldState, id: int)
    requires LobbyOk(w) && LobbyFree(w) && id in w.lobby.rooms && w.lobby.rooms[id].output != [] && ReturnsNew(w, id)
    requires w.lobby.rooms[id].output[0].newState == IDLE
    ensures LobbyOk(w.(lobby := StateChange(w.lobby, id)))
  {
    IdleReport(w, id);
    var w' := w.(lobby := StateChange(w.lobby, id));
    assert RoomsOk(w');
    ReturnedIndex(w, w', id);
  }

  lemma ReturnedIndex(w: WorldState, w': WorldState, id: int)
    requires IndexOk(w) && LobbyFree(w) && id in w.lobby.rooms && w.lobby.rooms[id].state != IDLE && w'.sending == w.sending
    requires forall fd :: fd in w'.lobby.clients ==> w'.lobby.clients[fd].fd == fd
    requires forall fd :: fd in w.lobby.clients ==> fd in w'.lobby.clients && w'.lobby.clients[fd] == w.lobby.clients[fd]
    requires w'.lobby.rooms.Keys == w.lobby.rooms.Keys && w'.lobby.rooms[id].state == IDLE
    requires forall i :: i in w.lobby.rooms && i != id ==> w'.lobby.rooms[i] == w.lobby.rooms[i]
    requires w'.lobby.paused == w.lobby.paused - {id} && w'.lobby.waiting == w.lobby.waiting
    ensures IndexOk(w')
  {
    forall fd | fd in w'.lobby.waiting
      ensures w'.lobby.waiting[fd] in w'.lobby.rooms && w'.lobby.rooms[w'.lobby.waiting[fd]].state == IDLE
    {
      var room := w.lobby.waiting[fd];
      assert fd in w.lobby.waiting && !InSending(w, fd);
      assert room in w.lobby.rooms && w.lobby.rooms[room].state == IDLE;
      assert room != id && w'.lobby.rooms[room] == w.lobby.rooms[room];
    }
    assert SendingOk(w') && WaitingOk(w');
  }

  lemma HandleChangeKeeps(w: WorldState, id: int)
    requires LobbyOk(w) && LobbyFree(w) && id in w.lobby.rooms && w.lobby.rooms[id].output != [] && ReturnsNew(w, id)
    ensures LobbyOk(w.(lobby := StateChange(w.lobby, id)))
  {
    if w.lobby.rooms[id].output[0].newState == IDLE { HandleIdleKeeps(w, id); } else { HandlePausedKeeps(w, id); }
  }

  lemma GameKeeps(w: WorldState, id: int, io: GameIO)
    requires LobbyOk(w) && id in w.threads && id in w.lobby.rooms
    requires io.output == w.lobby.rooms[id].output || io.output == w.lobby.rooms[id].output + [GameStateChange(PAUSED, None, None)]
    ensures LobbyOk(WithIO(w, id, io))
  {
    assert RoomOk(w.lobby.rooms[id], true);
  }

  lemma EndKeeps(maxPlayerCount: nat, w: WorldState, id: int)
    requires LobbyOk(w) && Enabled(w, End(id))
    ensures LobbyOk(Apply(maxPlayerCount, w, End(id)))
  {
    var room := w.lobby.rooms[id];
    var last := room.(output := room.output + [LastChange(w.threads[id])]);
    assert RoomOk(room, true);
    assert last.output[..|last.output| - 1] == room.output;
    assert RoomOk(last, false);
    var w' := Apply(maxPlayerCount, w, End(id));
    assert w'.lobby.rooms == w.lobby.rooms[id := last];
    assert RoomsOk(w');
  }
}
