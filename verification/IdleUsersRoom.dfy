// src/game_logic/game_server/IdleUsersRoom.cpp: the lobby in place, handler by handler.
module IdleUsersRooms {
  import opened Options
  import opened ProtocolMessages
  import opened EventfdQueues
  import opened Rooms
  import opened Lobby
  import opened Decimals
  import opened ObjectLists

  // _joinGameRoom to its end, when no game thread moves meanwhile.
  ghost function JoinToEnd(l: LobbyState, fd: int, gameId: Option<int>): Outcome
    requires fd in l.clients && l.waiting.Keys <= l.clients.Keys
  {
    var o := Join(l, fd, gameId);
    match o.start
    case None => o
    case Some(g) => o.(lobby := SendClient(SendClient(o.lobby, g.room, g.first), g.room, g.second))
  }

  ghost function ProcessToEnd(l: LobbyState, fd: int, msg: ProtocolData): Outcome
    requires fd in l.clients && l.waiting.Keys <= l.clients.Keys
  {
    var o := Process(l, fd, msg);
    match o.start
    case None => o
    case Some(g) => o.(lobby := SendClient(SendClient(o.lobby, g.room, g.first), g.room, g.second))
  }

  lemma WaitersStay(l: LobbyState, fd: int, msg: ProtocolData)
    requires fd in l.clients && l.waiting.Keys <= l.clients.Keys
    ensures var l' := ProcessToEnd(l, fd, msg).lobby; l'.waiting.Keys <= l'.clients.Keys
  {
  }

  // The messages of one read, until one of them drops or moves the client.
  ghost function ProcessBatch(l: LobbyState, fd: int, msgs: seq<ProtocolData>): Outcome
    requires fd in l.clients && l.waiting.Keys <= l.clients.Keys
    decreases |msgs|
  {
    if msgs == [] then Quiet(l)
    else
      WaitersStay(l, fd, msgs[0]);
      var o := ProcessToEnd(l, fd, msgs[0]);
      if o.threw || fd !in o.lobby.clients then o else Behind(o.closed, ProcessBatch(o.lobby, fd, msgs[1..]))
  }

  // _onClientWrite; None is an exception of the parser.
  ghost function HandleWrite(l: LobbyState, fd: int, parsed: Option<seq<ProtocolData>>): Outcome
    requires fd in l.clients && l.waiting.Keys <= l.clients.Keys
  {
    match parsed
    case None => Disconnect(l, fd)
    case Some(msgs) => ProcessBatch(l, fd, msgs)
  }

  lemma BatchFirst(gone: set<int>, l: LobbyState, fd: int, msgs: seq<ProtocolData>)
    requires fd in l.clients && l.waiting.Keys <= l.clients.Keys && msgs != []
    ensures var o := ProcessToEnd(l, fd, msgs[0]);
      && o.lobby.waiting.Keys <= o.lobby.clients.Keys
      && (!o.threw && fd in o.lobby.clients ==> o.start == None)
      && Behind(gone, ProcessBatch(l, fd, msgs)) ==
         if o.threw || fd !in o.lobby.clients then Behind(gone, o)
         else Behind(gone + o.closed, ProcessBatch(o.lobby, fd, msgs[1..]))
  {
    WaitersStay(l, fd, msgs[0]);
    var o := ProcessToEnd(l, fd, msgs[0]);
    if !o.threw && fd in o.lobby.clients {
      var rest := ProcessBatch(o.lobby, fd, msgs[1..]);
      assert gone + (o.closed + rest.closed) == (gone + o.closed) + rest.closed;
    }
  }

  // Two named clients that ask for the same idle room, one after the other, are its players: the
  // second one first, on their way to the game and registered in the room, and nobody else moves.
  lemma TwoJoinsStart(l: LobbyState, a: int, b: int, id: int)
    requires a in l.clients && b in l.clients && a != b && l.clients[a].HasName() && l.clients[b].HasName()
    requires l.waiting.Keys <= l.clients.Keys && a !in l.waiting && b !in l.waiting && !SomeoneWaits(l, id)
    requires id in l.rooms && l.rooms[id].state == IDLE && l.rooms[id].userA == "" && l.rooms[id].userB == ""
    ensures var l1 := JoinToEnd(l, a, Some(id)).lobby;
      && l1 == l.(waiting := l.waiting[a := id]) && l1.waiting.Keys <= l1.clients.Keys
      && var o := JoinToEnd(l1, b, Some(id));
        && !o.threw && o.start == Some(GameStart(id, b, a)) && o.closed == {}
        && o.lobby.clients == l.clients - {b} - {a}
        && o.lobby.rooms == l.rooms[id := Room(l.clients[b].name, l.clients[a].name, RUNNING,
                                               l.rooms[id].input + [l.clients[b]] + [l.clients[a]], l.rooms[id].output)]
        && (forall fd :: fd in o.lobby.waiting <==> fd in l.waiting)
  {
    var l1 := l.(waiting := l.waiting[a := id]);
    assert l1.waiting[a] == id;
    assert forall fd :: fd in l1.waiting && l1.waiting[fd] == id ==> fd == a;
  }

  // The reports of one room, handled until its queue is empty.
  ghost function DrainReports(l: LobbyState, id: int): (r: LobbyState)
    requires id in l.rooms
    decreases |l.rooms[id].output|
  {
    if l.rooms[id].output == [] then l else DrainReports(StateChange(l, id), id)
  }

  lemma Overwrite<K, V>(m: map<K, V>, k: K, a: V, b: V)
    ensures m[k := a][k := b] == m[k := b]
  {
  }

  // Pending PAUSED reports leave the room paused and nothing else changed.
  lemma {:induction false} PausesDrained(l: LobbyState, id: int)
    requires id in l.rooms && l.rooms[id].output != []
    requires forall i :: 0 <= i < |l.rooms[id].output| ==> l.rooms[id].output[i].newState == PAUSED
    ensures var l' := DrainReports(l, id);
      && l'.rooms == l.rooms[id := l.rooms[id].(state := PAUSED, output := [])]
      && l'.clients == l.clients && l'.waiting == l.waiting
      && forall r :: r in l'.paused <==> r in l.paused || r == id
    decreases |l.rooms[id].output|
  {
    var room := l.rooms[id];
    var l1 := StateChange(l, id);
    var room1 := room.(output := room.output[1..], state := PAUSED);
    assert l1.rooms[id] == room1;
    if |room.output| > 1 {
      PausesDrained(l1, id);
      Overwrite(l.rooms, id, room1, room1.(output := []));
    } else {
      assert DrainReports(l1, id) == l1;
    }
  }

  // A client that comes back is the one that was sent, with its name and its denied requests.
  predicate CameBack(client: Option<Client>, clients: map<int, Client>) {
    client.Some? ==> client.value.fd in clients && clients[client.value.fd] == client.value
  }

  // The last report brings its clients back and leaves the room idle, without users, whatever was
  // paused before it.
  lemma {:induction false} LastDrained(l: LobbyState, id: int, pauses: seq<GameStateChange>,
        client1: Option<Client>, client2: Option<Client>)
    requires id in l.rooms && l.rooms[id].output == pauses + [GameStateChange(IDLE, client1, client2)]
    requires forall i :: 0 <= i < |pauses| ==> pauses[i].newState == PAUSED
    requires client1.Some? && client2.Some? ==> client1.value.fd != client2.value.fd
    ensures var l' := DrainReports(l, id);
      && l'.rooms == l.rooms[id := Room("", "", IDLE, l.rooms[id].input, [])]
      && CameBack(client1, l'.clients) && CameBack(client2, l'.clients)
      && (forall fd :: fd in l'.clients <==>
            fd in l.clients || (client1.Some? && fd == client1.value.fd) || (client2.Some? && fd == client2.value.fd))
      && (forall fd :: fd in l.clients && !(client1.Some? && fd == client1.value.fd) && !(client2.Some? && fd == client2.value.fd) ==>
            l'.clients[fd] == l.clients[fd])
      && l'.waiting == l.waiting && forall r :: r in l'.paused <==> r in l.paused && r != id
    decreases |pauses|
  {
    var room := l.rooms[id];
    var l1 := StateChange(l, id);
    if pauses == [] {
      assert DrainReports(l1, id) == l1;
    } else {
      assert room.output[0] == pauses[0] && room.output[1..] == pauses[1..] + [GameStateChange(IDLE, client1, client2)];
      LastDrained(l1, id, pauses[1..], client1, client2);
      Overwrite(l.rooms, id, l1.rooms[id], Room("", "", IDLE, room.input, []));
    }
  }

  // The new connections, taken one after the other.
  function TakeAll(l: LobbyState, fds: seq<int>, maxPlayerCount: nat): Outcome
    decreases |fds|
  {
    if fds == [] then Quiet(l)
    else
      var first := TakeNewClient(l, fds[0], maxPlayerCount);
      var rest := TakeAll(first.lobby, fds[1..], maxPlayerCount);
      rest.(closed := first.closed + rest.closed)
  }

  function Behind(gone: set<int>, o: Outcome): Outcome {
    o.(closed := gone + o.closed)
  }

  lemma TakeAllFirst(gone: set<int>, l: LobbyState, fds: seq<int>, maxPlayerCount: nat)
    requires fds != []
    ensures var first := TakeNewClient(l, fds[0], maxPlayerCount);
      Behind(gone, TakeAll(l, fds, maxPlayerCount)) == Behind(gone + first.closed, TakeAll(first.lobby, fds[1..], maxPlayerCount))
  {
    var first := TakeNewClient(l, fds[0], maxPlayerCount);
    var rest := TakeAll(first.lobby, fds[1..], maxPlayerCount);
    assert gone + (first.closed + rest.closed) == (gone + first.closed) + rest.closed;
  }

  // One line of the room list.
  ghost function RoomRow(l: LobbyState, id: int): Row
    requires id in l.rooms && id >= 0 && l.waiting.Keys <= l.clients.Keys
  {
    var room := l.rooms[id];
    var users := if SomeoneWaits(l, id) then [l.clients[Waiter(l, id)].name, ""] else [room.userA, room.userB];
    users + [Decimal(id), StateText(room.state)]
  }

  // std::to_string of the enumerator
  function StateText(state: GameState): string {
    match state
    case IDLE => "0"
    case RUNNING => "1"
    case PAUSED => "2"
  }

  // Since at most one client waits for a room, the list shows every waiting client.
  lemma EveryWaiterListed(l: LobbyState, fd: int)
    requires l.waiting.Keys <= l.clients.Keys && fd in l.waiting && l.waiting[fd] in l.rooms && l.waiting[fd] >= 0
    requires forall f, g :: f in l.waiting && g in l.waiting && l.waiting[f] == l.waiting[g] ==> f == g
    ensures fd in l.clients && RoomRow(l, l.waiting[fd])[0] == l.clients[fd].name
  {
    assert SomeoneWaits(l, l.waiting[fd]);
  }

  // The row shows a room: its waiting client, or its two users; its number; and its state.
  ghost predicate ListsRoom(row: Row, l: LobbyState, id: int)
    requires id in l.rooms && l.waiting.Keys <= l.clients.Keys
  {
    && |row| == 4
    && (forall fd :: fd in l.waiting && l.waiting[fd] == id ==>
          fd in l.clients && row[0] == l.clients[fd].name && row[1] == "")
    && ((forall fd :: fd in l.waiting ==> l.waiting[fd] != id) ==> row[0] == l.rooms[id].userA && row[1] == l.rooms[id].userB)
    && IsDigits(row[2]) && NoLeadingZero(row[2]) && DigitsValue(row[2]) == id
    && (l.rooms[id].state == IDLE ==> row[3] == "0")
    && (l.rooms[id].state == RUNNING ==> row[3] == "1")
    && (l.rooms[id].state == PAUSED ==> row[3] == "2")
  }

  // No name in the row of a room holds a comma or a closing brace.
  ghost predicate PlainRoom(l: LobbyState, id: int)
    requires id in l.rooms && l.waiting.Keys <= l.clients.Keys
  {
    && (forall fd :: fd in l.waiting && l.waiting[fd] == id ==> fd in l.clients && GoodItem(l.clients[fd].name))
    && ((forall fd :: fd in l.waiting ==> l.waiting[fd] != id) ==> GoodItem(l.rooms[id].userA) && GoodItem(l.rooms[id].userB))
  }

  lemma RowLists(l: LobbyState, id: int)
    requires id in l.rooms && id >= 0 && l.waiting.Keys <= l.clients.Keys
    requires forall f, g :: f in l.waiting && g in l.waiting && l.waiting[f] == l.waiting[g] ==> f == g
    ensures ListsRoom(RoomRow(l, id), l, id) && (GoodRow(RoomRow(l, id)) <==> PlainRoom(l, id))
  {
    DecimalRoundTrip(id);
    DecimalUnique(Decimal(id), id);
    forall fd | fd in l.waiting && l.waiting[fd] == id
      ensures SomeoneWaits(l, id) && Waiter(l, id) == fd && fd in l.clients
    {
      EveryWaiterListed(l, fd);
    }
    var row := RoomRow(l, id);
    assert GoodItem(row[2]) && GoodItem(row[3]) && GoodItem("");
    assert GoodRow(row) <==> GoodItem(row[0]) && GoodItem(row[1]);
  }

  // The names the list shows for rooms 1 to count are plain.
  ghost predicate PlainList(l: LobbyState, count: nat)
    requires l.waiting.Keys <= l.clients.Keys
  {
    forall id :: 1 <= id <= count && id in l.rooms ==> PlainRoom(l, id)
  }

  // The text decodes into the rows exactly if the names it shows are plain.
  lemma {:induction false} RoomListDecodes(l: LobbyState, list: seq<Row>)
    requires l.waiting.Keys <= l.clients.Keys
    requires forall i :: 0 <= i < |list| ==> i + 1 in l.rooms && list[i] == RoomRow(l, i + 1)
    requires forall f, g :: f in l.waiting && g in l.waiting && l.waiting[f] == l.waiting[g] ==> f == g
    ensures forall i :: 0 <= i < |list| ==> ListsRoom(list[i], l, i + 1)
    ensures DecodeRows(ListText(list)) == list <==> PlainList(l, |list|)
  {
    forall i | 0 <= i < |list|
      ensures ListsRoom(list[i], l, i + 1) && (GoodRow(list[i]) <==> PlainRoom(l, i + 1))
    {
      var row := list[i];
      RowLists(l, i + 1);
    }
    forall id | 1 <= id <= |list|
      ensures id in l.rooms && (GoodRow(list[id - 1]) <==> PlainRoom(l, id))
    {
      var row := list[id - 1];
    }
    ListRoundTrip(list);
  }

  class IdleUsersRoom {
    const roomCount: nat
    const maxPlayerCount: nat
    var clientsMap: map<int, Client>
    var gameRooms: map<int, Room>
    var pausedGameRooms: set<int>
    var waitingToJoinGame: map<int, int>
    ghost var closed: set<int>          // the connections closed by destroying their client

    ghost predicate Valid()
      reads this
    {
      && (forall id :: id in gameRooms <==> 1 <= id <= roomCount)
      && (forall id :: id in pausedGameRooms ==> id in gameRooms)
      && (forall fd :: fd in waitingToJoinGame ==> fd in clientsMap)
      && (forall f, g :: f in waitingToJoinGame && g in waitingToJoinGame && waitingToJoinGame[f] == waitingToJoinGame[g] ==> f == g)
    }

    ghost function View(): LobbyState
      requires Valid()
      reads this
      ensures View().waiting.Keys <= View().clients.Keys
    {
      assert forall fd :: fd in waitingToJoinGame.Keys ==> fd in clientsMap.Keys;
      LobbyState(clientsMap, gameRooms, pausedGameRooms, waitingToJoinGame)
    }

    constructor (roomCount: nat, maxPlayerCount: nat)
      ensures Valid() && this.roomCount == roomCount && this.maxPlayerCount == maxPlayerCount && closed == {}
      ensures forall id :: id in gameRooms ==> gameRooms[id] == Room("", "", IDLE, [], [])
      ensures clientsMap == map[] && waitingToJoinGame == map[] && pausedGameRooms == {}
    {
      this.roomCount := roomCount;
      this.maxPlayerCount := maxPlayerCount;
      clientsMap, waitingToJoinGame, pausedGameRooms, gameRooms := map[], map[], {}, map[];
      closed := {};
      new;
      for i := 1 to roomCount + 1
        invariant clientsMap == map[] && waitingToJoinGame == map[] && pausedGameRooms == {} && closed == {}
        invariant forall id :: id in gameRooms <==> 1 <= id < i
        invariant forall id :: id in gameRooms ==> gameRooms[id] == Room("", "", IDLE, [], [])
      {
        gameRooms := gameRooms[i := Room("", "", IDLE, [], [])];
      }
    }

    method OnClientDisconnect(fd: int)
      requires Valid()
      modifies this`clientsMap, this`waitingToJoinGame, this`closed
      ensures Valid()
      ensures var o := Disconnect(old(View()), fd); View() == o.lobby && closed == old(closed) + o.closed
    {
      if fd in clientsMap {
        waitingToJoinGame := waitingToJoinGame - {fd};
        clientsMap := clientsMap - {fd};
        closed := closed + {fd};
      }
    }

    method DenyRequest(fd: int)
      requires Valid() && fd in clientsMap
      modifies this`clientsMap, this`waitingToJoinGame, this`closed
      ensures Valid()
      ensures var o := Deny(old(View()), fd); View() == o.lobby && closed == old(closed) + o.closed
    {
      var client := clientsMap[fd];
      if client.denied >= MAX_REQ_DENIED_CNT {
        OnClientDisconnect(fd);
      } else {
        clientsMap := clientsMap[fd := client.(denied := client.denied + 1)];
      }
    }

    // The scans of _enterUsername: the clients, the rooms, and the paused rooms once more.
    method NameTaken(fd: int, username: string) returns (taken: bool)
      requires Valid()
      ensures taken <==> NameInLobby(View(), fd, username) || NameInRooms(View(), username)
    {
      var keys := clientsMap.Keys;
      while true
        invariant forall k :: k in keys ==> k in clientsMap
        invariant forall k :: k in clientsMap && k !in keys ==> !(k != fd && clientsMap[k].HasName() && clientsMap[k].name == username)
        decreases keys
      {
        if k :| k in keys {
          if clientsMap[k].HasName() && k != fd && clientsMap[k].name == username {
            return true;
          }
          keys := keys - {k};
        } else {
          break;
        }
      }
      assert !NameInLobby(View(), fd, username);
      var ids := gameRooms.Keys;
      while true
        invariant forall id :: id in ids ==> id in gameRooms
        invariant forall id :: id in gameRooms && id !in ids ==> !gameRooms[id].HasUsername(username)
        decreases ids
      {
        if id :| id in ids {
          if gameRooms[id].HasUsername(username) {
            assert NameInRooms(View(), username);
            return true;
          }
          ids := ids - {id};
        } else {
          break;
        }
      }
      assert !NameInRooms(View(), username);
      var paused := PausedRoomOf(username);
      taken := paused.Some?;
    }

    // A search of the paused rooms for a registered name.
    method PausedRoomOf(username: string) returns (room: Option<int>)
      requires Valid()
      ensures room.Some? ==> room.value in gameRooms && room.value in pausedGameRooms && gameRooms[room.value].HasUsername(username)
      ensures room.Some? ==> NameInRooms(View(), username)
      ensures room.None? ==> forall id :: id in pausedGameRooms ==> !gameRooms[id].HasUsername(username)
    {
      var ids := pausedGameRooms;
      while true
        invariant forall id :: id in ids ==> id in pausedGameRooms
        invariant forall id :: id in pausedGameRooms && id !in ids ==> !gameRooms[id].HasUsername(username)
        decreases ids
      {
        if id :| id in ids {
          if gameRooms[id].HasUsername(username) {
            return Some(id);
          }
          ids := ids - {id};
        } else {
          break;
        }
      }
      room := None;
    }

    method EnterName(fd: int, username: string)
      requires Valid() && fd in clientsMap
      modifies this
      ensures Valid()
      ensures var o := EnterUsername(old(View()), fd, username); View() == o.lobby && closed == old(closed) + o.closed
    {
      var taken := NameTaken(fd, username);
      if taken {
        DenyRequest(fd);
        return;
      }
      clientsMap := clientsMap[fd := clientsMap[fd].(name := username)];
      assert !NameInRooms(View(), username);
      var rejoined := PausedRoomOf(username);
      if rejoined.Some? {
        // The scans above refused every name that is registered in a room.
        assert false;
      }
    }

    // _newGameThread without the thread itself.
    method NewGameThread(fd1: int, fd2: int, id: int) returns (threw: bool)
      requires Valid() && id in gameRooms && fd1 in clientsMap && fd2 in clientsMap
      modifies this`pausedGameRooms, this`gameRooms
      ensures Valid()
      ensures var o := StartRoom(old(View()), id, clientsMap[fd1].name, clientsMap[fd2].name);
        View() == o.lobby && threw == o.threw
    {
      gameRooms := gameRooms[id := gameRooms[id].(state := RUNNING)];
      var room := gameRooms[id].AddUser(clientsMap[fd1].name);
      if room.None? {
        return true;
      }
      gameRooms := gameRooms[id := room.value];
      room := gameRooms[id].AddUser(clientsMap[fd2].name);
      if room.None? {
        return true;
      }
      gameRooms := gameRooms[id := room.value];
      pausedGameRooms := pausedGameRooms - {id};
      threw := false;
    }

    method SendClientToGameThread(id: int, fd: int)
      requires Valid() && id in gameRooms && fd in clientsMap
      modifies this`clientsMap, this`waitingToJoinGame, this`gameRooms
      ensures Valid() && View() == SendClient(old(View()), id, fd)
    {
      waitingToJoinGame := waitingToJoinGame - {fd};
      var room := gameRooms[id];
      gameRooms := gameRooms[id := room.(input := room.input + [clientsMap[fd]])];
      clientsMap := clientsMap - {fd};
    }

    // The search through the waiting clients; at most one of them waits for this room.
    method FindWaiter(id: int) returns (waiter: Option<int>)
      requires Valid()
      ensures waiter.Some? <==> SomeoneWaits(View(), id)
      ensures waiter.Some? ==> waiter.value == Waiter(View(), id)
    {
      var keys := waitingToJoinGame.Keys;
      while true
        invariant forall k :: k in keys ==> k in waitingToJoinGame
        invariant forall k :: k in waitingToJoinGame && k !in keys ==> waitingToJoinGame[k] != id
        decreases keys
      {
        if k :| k in keys {
          if waitingToJoinGame[k] == id {
            assert SomeoneWaits(View(), id);
            return Some(k);
          }
          keys := keys - {k};
        } else {
          break;
        }
      }
      waiter := None;
    }

    method JoinGameRoom(fd: int, gameIdStr: string) returns (start: Option<GameStart>, threw: bool)
      requires Valid() && fd in clientsMap
      modifies this
      ensures Valid()
      ensures var o := JoinToEnd(old(View()), fd, Stoi(gameIdStr));
        View() == o.lobby && closed == old(closed) + o.closed && start == o.start && threw == o.threw
    {
      start, threw := None, false;
      var gameId := Stoi(gameIdStr);
      if gameId.None? || gameId.value !in gameRooms {
        DenyRequest(fd);
        return;
      }
      var id := gameId.value;
      if gameRooms[id].state != IDLE {
        DenyRequest(fd);
        return;
      }
      var waiter := FindWaiter(id);
      if waiter.Some? {
        if waiter.value == fd {
          DenyRequest(fd);
          return;
        }
        threw := NewGameThread(fd, waiter.value, id);
        if !threw {
          SendClientToGameThread(id, fd);
          SendClientToGameThread(id, waiter.value);
          start := Some(GameStart(id, fd, waiter.value));
        }
        return;
      }
      waitingToJoinGame := waitingToJoinGame[fd := id];
    }

    method GetRoomList() returns (list: seq<Row>, text: string)
      requires Valid()
      ensures |list| == roomCount && forall i :: 0 <= i < roomCount ==> list[i] == RoomRow(View(), i + 1)
      ensures forall i :: 0 <= i < roomCount ==> ListsRoom(list[i], View(), i + 1)
      ensures text == ListText(list)
      ensures DecodeRows(text) == list <==> PlainList(View(), roomCount)
    {
      var waitingRooms: map<int, int> := map[];
      var keys := waitingToJoinGame.Keys;
      while true
        invariant forall k :: k in keys ==> k in waitingToJoinGame
        invariant forall k :: k in waitingToJoinGame && k !in keys ==> waitingToJoinGame[k] in waitingRooms
        invariant forall id :: id in waitingRooms ==> waitingRooms[id] in waitingToJoinGame && waitingToJoinGame[waitingRooms[id]] == id
        decreases keys
      {
        if k :| k in keys {
          waitingRooms := waitingRooms[waitingToJoinGame[k] := k];
          keys := keys - {k};
        } else {
          break;
        }
      }
      list := [];
      for id := 1 to roomCount + 1
        invariant |list| == id - 1
        invariant forall i :: 0 <= i < id - 1 ==> list[i] == RoomRow(View(), i + 1)
      {
        var room := gameRooms[id];
        var line: Row := [];
        if id in waitingRooms {
          assert SomeoneWaits(View(), id) && Waiter(View(), id) == waitingRooms[id];
          line := [clientsMap[waitingRooms[id]].name, ""];
        } else {
          assert !SomeoneWaits(View(), id);
          line := [room.userA, room.userB];
        }
        line := line + [Decimal(id), StateText(room.state)];
        list := list + [line];
      }
      text := SerializeObjectList(list);
      RoomListDecodes(View(), list);
    }

    method ProcessClientMessage(fd: int, msg: ProtocolData) returns (start: Option<GameStart>, threw: bool)
      requires Valid() && fd in clientsMap
      modifies this
      ensures Valid()
      ensures var o := ProcessToEnd(old(View()), fd, msg);
        View() == o.lobby && closed == old(closed) + o.closed && start == o.start && threw == o.threw
    {
      start, threw := None, false;
      match msg.methodName {
        case TERMINATE_CONNECTION =>
          OnClientDisconnect(fd);
        case ENTER_USERNAME =>
          if msg.HasField("username") && !clientsMap[fd].HasName() {
            EnterName(fd, msg.GetField("username"));
          } else {
            DenyRequest(fd);
          }
        case GET_ROOM_LIST =>
          if clientsMap[fd].HasName() {
            var _, _ := GetRoomList();
          } else {
            DenyRequest(fd);
          }
        case JOIN_GAME =>
          if msg.HasField("game_id") && clientsMap[fd].HasName() {
            start, threw := JoinGameRoom(fd, msg.GetField("game_id"));
          } else {
            DenyRequest(fd);
          }
        case _ =>
          DenyRequest(fd);
      }
    }

    method OnClientWrite(fd: int, parsed: Option<seq<ProtocolData>>) returns (start: Option<GameStart>, threw: bool)
      requires Valid() && fd in clientsMap
      modifies this
      ensures Valid()
      ensures var o := HandleWrite(old(View()), fd, parsed);
        View() == o.lobby && closed == old(closed) + o.closed && start == o.start && threw == o.threw
    {
      start, threw := None, false;
      if parsed.None? {
        OnClientDisconnect(fd);
        return;
      }
      var msgs := parsed.value;
      ghost var start0, before := View(), closed;
      ghost var gone: set<int> := {};
      for i := 0 to |msgs|
        invariant Valid() && fd in clientsMap && closed == before + gone && start == None && !threw
        invariant Behind(gone, ProcessBatch(View(), fd, msgs[i..])) == ProcessBatch(start0, fd, msgs)
      {
        assert msgs[i..][0] == msgs[i] && msgs[i..][1..] == msgs[i + 1..];
        BatchFirst(gone, View(), fd, msgs[i..]);
        ghost var now := ProcessToEnd(View(), fd, msgs[i]).closed;
        start, threw := ProcessClientMessage(fd, msgs[i]);
        UnionMoved(before, gone, now);
        gone := gone + now;
        if threw || fd !in clientsMap {
          return;
        }
      }
    }

    static lemma UnionMoved(a: set<int>, b: set<int>, c: set<int>)
      ensures (a + b) + c == a + (b + c)
    {
    }

    method AddClientBack(client: Option<Client>)
      requires Valid()
      modifies this`clientsMap
      ensures Valid() && View() == AddBack(old(View()), client)
    {
      if client.Some? {
        clientsMap := clientsMap[client.value.fd := client.value];
      }
    }

    // One round of the loop of _onNewClientConnect.
    method TakeClient(fd: int)
      requires Valid()
      modifies this`clientsMap, this`waitingToJoinGame, this`closed
      ensures Valid()
      ensures var o := TakeNewClient(old(View()), fd, maxPlayerCount); View() == o.lobby && closed == old(closed) + o.closed
    {
      clientsMap := clientsMap[fd := Client(fd, "", 0)];
      if |clientsMap| > maxPlayerCount {
        OnClientDisconnect(fd);
      }
    }

    method TakeNextClient(queue: EventfdQueue<int>)
      requires Valid() && queue.data != []
      modifies this`clientsMap, this`waitingToJoinGame, this`closed, queue
      ensures Valid() && queue.data == old(queue.data)[1..]
      ensures var o := TakeNewClient(old(View()), old(queue.data)[0], maxPlayerCount);
        View() == o.lobby && closed == old(closed) + o.closed
    {
      var clientfd := queue.Pop();
      TakeClient(clientfd);
    }

    method OnNewClientConnect(queue: EventfdQueue<int>)
      requires Valid()
      modifies this`clientsMap, this`waitingToJoinGame, this`closed, queue
      ensures Valid() && queue.data == []
      ensures var o := TakeAll(old(View()), old(queue.data), maxPlayerCount); View() == o.lobby && closed == old(closed) + o.closed
    {
      var _ := queue.Read();
      ghost var all, start, before := queue.data, View(), closed;
      ghost var gone: set<int> := {};
      var empty := queue.IsEmpty();
      while !empty
        invariant Valid() && empty == (queue.data == []) && closed == before + gone
        invariant TakeAll(start, all, maxPlayerCount) == Behind(gone, TakeAll(View(), queue.data, maxPlayerCount))
        decreases |queue.data|
      {
        TakeAllFirst(gone, View(), queue.data, maxPlayerCount);
        ghost var now := TakeNewClient(View(), queue.data[0], maxPlayerCount).closed;
        TakeNextClient(queue);
        UnionMoved(before, gone, now);
        gone := gone + now;
        empty := queue.IsEmpty();
      }
    }

    // One round of the loop of _onGameStateChange.
    method HandleReport(id: int)
      requires Valid() && id in gameRooms && gameRooms[id].output != []
      modifies this`clientsMap, this`pausedGameRooms, this`gameRooms
      ensures Valid() && View() == StateChange(old(View()), id)
    {
      var room := gameRooms[id];
      var change := room.output[0];
      room := room.(output := room.output[1..]);
      match change.newState {
        case IDLE =>
          AddClientBack(change.client1);
          AddClientBack(change.client2);
          room := room.(state := IDLE, userA := "", userB := "");
          pausedGameRooms := pausedGameRooms - {id};
        case RUNNING =>
        case PAUSED =>
          room := room.(state := PAUSED);
          pausedGameRooms := pausedGameRooms + {id};
      }
      gameRooms := gameRooms[id := room];
    }

    method OnGameStateChange(id: int)
      requires Valid() && id in gameRooms
      modifies this`clientsMap, this`pausedGameRooms, this`gameRooms
      ensures Valid() && View() == DrainReports(old(View()), id)
    {
      while gameRooms[id].output != []
        invariant Valid()
        invariant DrainReports(View(), id) == DrainReports(old(View()), id)
        decreases |gameRooms[id].output|
      {
        HandleReport(id);
      }
    }
  }
}
