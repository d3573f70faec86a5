// What each message does to the lobby, exactly: who is dropped, denied, named, put on the waiting list
// or sent to a game; and how many of the queued connections are admitted.
module LobbyMessages {
  import opened Options
  import opened ProtocolMessages
  import opened Rooms
  import opened Lobby
  import opened Decimals
  import opened Numerals
  import opened ObjectLists
  import opened IdleUsersRooms

  // What the runs of the server keep of the index maps and of idle rooms.
  ghost predicate LobbyInOrder(l: LobbyState) {
    && l.waiting.Keys <= l.clients.Keys
    && (forall fd :: fd in l.waiting ==> fd in l.clients && l.clients[fd].HasName())
    && (forall f, g :: f in l.waiting && g in l.waiting && l.waiting[f] == l.waiting[g] ==> f == g)
    && (forall id :: id in l.rooms && l.rooms[id].state == IDLE ==> l.rooms[id].userA == "" && l.rooms[id].userB == "")
  }

  // The text starts with this number.
  ghost predicate NamesNumber(text: string, v: int) {
    IsInt(v) && exists r :: IsReading(r) && text == r.Text() && v == r.Value()
  }

  ghost predicate OpenRoom(l: LobbyState, text: string, id: int) {
    NamesNumber(text, id) && id in l.rooms && l.rooms[id].state == IDLE
  }

  ghost predicate NameTaken(l: LobbyState, fd: int, name: string) {
    || (exists other :: other in l.clients && other != fd && name != "" && l.clients[other].name == name)
    || (exists id :: id in l.rooms && (l.rooms[id].userA == name || l.rooms[id].userB == name))
  }

  ghost predicate Denies(l: LobbyState, fd: int, msg: ProtocolData)
    requires fd in l.clients
  {
    match msg.methodName
    case TERMINATE_CONNECTION => false
    case ENTER_USERNAME =>
      !msg.HasField("username") || l.clients[fd].name != "" || NameTaken(l, fd, msg.GetField("username"))
    case GET_ROOM_LIST => l.clients[fd].name == ""
    case JOIN_GAME =>
      || !msg.HasField("game_id") || l.clients[fd].name == ""
      || !exists id :: OpenRoom(l, msg.GetField("game_id"), id) && !(fd in l.waiting && l.waiting[fd] == id)
    case _ => true
  }

  // ---- What may happen to the sender ----

  ghost predicate Dropped(l: LobbyState, fd: int, o: Outcome) {
    && o.closed == {fd} && o.start == None && !o.threw
    && o.lobby == l.(clients := l.clients - {fd}, waiting := l.waiting - {fd})
  }

  ghost predicate Only(o: Outcome, l: LobbyState) {
    o.closed == {} && o.start == None && !o.threw && o.lobby == l
  }

  ghost predicate Started(l: LobbyState, fd: int, other: int, id: int, o: Outcome)
    requires fd in l.clients && other in l.clients && id in l.rooms
  {
    && o.closed == {} && o.start == Some(GameStart(id, fd, other)) && !o.threw
    && o.lobby.clients == l.clients - {fd} - {other}
    && o.lobby.rooms == l.rooms[id := Room(l.clients[fd].name, l.clients[other].name, RUNNING,
                                           l.rooms[id].input + [l.clients[fd]] + [l.clients[other]], l.rooms[id].output)]
    && o.lobby.waiting == l.waiting - {fd} - {other} && o.lobby.paused == l.paused - {id}
  }

  lemma TakenIs(l: LobbyState, fd: int, name: string)
    ensures NameTaken(l, fd, name) <==> NameInLobby(l, fd, name) || NameInRooms(l, name)
  {
    if other :| other in l.clients && other != fd && name != "" && l.clients[other].name == name {
      assert l.clients[other].HasName();
    }
    if id :| id in l.rooms && (l.rooms[id].userA == name || l.rooms[id].userB == name) {
      assert l.rooms[id].HasUsername(name);
    }
  }

  lemma OpenIs(l: LobbyState, text: string, id: int)
    ensures OpenRoom(l, text, id) <==> Stoi(text) == Some(id) && id in l.rooms && l.rooms[id].state == IDLE
  {
    StoiExact(text, id);
  }

  lemma DenyExact(l: LobbyState, fd: int)
    requires fd in l.clients
    ensures var c := l.clients[fd];
      if c.denied >= 5 then Dropped(l, fd, Deny(l, fd))
      else Only(Deny(l, fd), l.(clients := l.clients[fd := c.(denied := c.denied + 1)]))
  {
  }

  lemma StartExact(l: LobbyState, fd: int, other: int, id: int)
    requires LobbyInOrder(l) && fd in l.clients && l.clients[fd].HasName() && other != fd
    requires id in l.rooms && l.rooms[id].state == IDLE && other in l.waiting && l.waiting[other] == id
    ensures Started(l, fd, other, id, JoinToEnd(l, fd, Some(id)))
  {
    assert SomeoneWaits(l, id) && Waiter(l, id) == other;
  }

  lemma JoinOpen(l: LobbyState, fd: int, text: string, id: int)
    requires LobbyInOrder(l) && fd in l.clients && l.clients[fd].HasName() && OpenRoom(l, text, id)
    ensures var o := JoinToEnd(l, fd, Stoi(text));
      && (fd in l.waiting && l.waiting[fd] == id ==> o == Deny(l, fd))
      && (forall other :: other in l.waiting && l.waiting[other] == id && other != fd ==> Started(l, fd, other, id, o))
      && ((forall other :: other in l.waiting ==> l.waiting[other] != id) ==> Only(o, l.(waiting := l.waiting[fd := id])))
  {
    OpenIs(l, text, id);
    forall other | other in l.waiting && l.waiting[other] == id && other != fd
      ensures Started(l, fd, other, id, JoinToEnd(l, fd, Stoi(text)))
    {
      StartExact(l, fd, other, id);
    }
    if fd in l.waiting && l.waiting[fd] == id { assert SomeoneWaits(l, id) && Waiter(l, id) == fd; }
  }

  lemma JoinClosed(l: LobbyState, fd: int, text: string)
    requires LobbyInOrder(l) && fd in l.clients && forall id :: !OpenRoom(l, text, id)
    ensures JoinToEnd(l, fd, Stoi(text)) == Deny(l, fd)
  {
    if Stoi(text).Some? { OpenIs(l, text, Stoi(text).value); }
  }

  // A named client joins, and the text names at most one room.
  lemma JoinExact(l: LobbyState, fd: int, msg: ProtocolData)
    requires LobbyInOrder(l) && fd in l.clients && l.clients[fd].HasName()
    requires msg.methodName == JOIN_GAME && msg.HasField("game_id")
    ensures var o, text := JoinToEnd(l, fd, Stoi(msg.GetField("game_id"))), msg.GetField("game_id");
      && (Denies(l, fd, msg) ==> o == Deny(l, fd))
      && (!Denies(l, fd, msg) ==> exists id :: OpenRoom(l, text, id))
      && forall id :: !Denies(l, fd, msg) && OpenRoom(l, text, id) ==>
           && (forall other :: other in l.waiting && l.waiting[other] == id ==> other != fd && Started(l, fd, other, id, o))
           && ((forall other :: other in l.waiting ==> l.waiting[other] != id) ==> Only(o, l.(waiting := l.waiting[fd := id])))
  {
    var text := msg.GetField("game_id");
    if id :| OpenRoom(l, text, id) {
      OpenIs(l, text, id);
      JoinOpen(l, fd, text, id);
      forall id' | OpenRoom(l, text, id')
        ensures id' == id
      {
        OpenIs(l, text, id');
      }
    } else {
      JoinClosed(l, fd, text);
    }
  }

  // Every message of a client of the lobby, run to its end.
  lemma MessageExact(l: LobbyState, fd: int, msg: ProtocolData)
    requires LobbyInOrder(l) && fd in l.clients
    ensures var o, c, denied := ProcessToEnd(l, fd, msg), l.clients[fd], Denies(l, fd, msg);
      && (msg.methodName == TERMINATE_CONNECTION || (denied && c.denied >= 5) ==> Dropped(l, fd, o))
      && (denied && c.denied < 5 ==> Only(o, l.(clients := l.clients[fd := c.(denied := c.denied + 1)])))
      && (!denied && msg.methodName == ENTER_USERNAME ==>
            Only(o, l.(clients := l.clients[fd := c.(name := msg.GetField("username"))])))
      && (!denied && msg.methodName == GET_ROOM_LIST ==> Only(o, l))
      && (!denied && msg.methodName == JOIN_GAME ==> exists id :: OpenRoom(l, msg.GetField("game_id"), id))
      && forall id :: !denied && msg.methodName == JOIN_GAME && OpenRoom(l, msg.GetField("game_id"), id) ==>
           && (forall other :: other in l.waiting && l.waiting[other] == id ==> other != fd && Started(l, fd, other, id, o))
           && ((forall other :: other in l.waiting ==> l.waiting[other] != id) ==> Only(o, l.(waiting := l.waiting[fd := id])))
  {
    DenyExact(l, fd);
    match msg.methodName
    case ENTER_USERNAME => if msg.HasField("username") { TakenIs(l, fd, msg.GetField("username")); }
    case JOIN_GAME => if msg.HasField("game_id") && l.clients[fd].HasName() { JoinExact(l, fd, msg); }
    case _ =>
  }

  // A parser exception drops the sender and nobody else.
  lemma ParserErrorDrops(l: LobbyState, fd: int)
    requires LobbyInOrder(l) && fd in l.clients
    ensures Dropped(l, fd, HandleWrite(l, fd, None))
  {
  }

  function JoinMessage(id: nat): ProtocolData {
    ProtocolData(JOIN_GAME, map["game_id" := Decimal(id)])
  }

  lemma SecondJoins(l: LobbyState, fd: int, other: int, id: nat)
    requires LobbyInOrder(l) && fd in l.clients && l.clients[fd].HasName() && other != fd
    requires other in l.waiting && l.waiting[other] == id
    requires id in l.rooms && l.rooms[id].state == IDLE && id <= 2147483647
    ensures Started(l, fd, other, id, ProcessToEnd(l, fd, JoinMessage(id)))
  {
    DecimalRead(id);
    OpenIs(l, Decimal(id), id);
    JoinOpen(l, fd, Decimal(id), id);
  }

  // Two named clients that send JOIN_GAME with the number of the same idle room, one after the other,
  // are its players.
  lemma TwoJoinMessages(l: LobbyState, a: int, b: int, id: nat)
    requires LobbyInOrder(l) && a in l.clients && b in l.clients && a != b && l.clients[a].HasName() && l.clients[b].HasName()
    requires a !in l.waiting && b !in l.waiting && forall fd :: fd in l.waiting ==> l.waiting[fd] != id
    requires id in l.rooms && l.rooms[id].state == IDLE && id <= 2147483647
    ensures var l1 := ProcessToEnd(l, a, JoinMessage(id)).lobby;
      && l1 == l.(waiting := l.waiting[a := id]) && LobbyInOrder(l1)
      && Started(l1, b, a, id, ProcessToEnd(l1, b, JoinMessage(id)))
  {
    DecimalRead(id);
    OpenIs(l, Decimal(id), id);
    JoinOpen(l, a, Decimal(id), id);
    var l1 := l.(waiting := l.waiting[a := id]);
    assert LobbyInOrder(l1);
    SecondJoins(l1, b, a, id);
  }

  // The room list then shows the second joiner first, the first one second, and the room as running.
  lemma TwoJoinsListed(l: LobbyState, a: int, b: int, id: nat, row: Row)
    requires LobbyInOrder(l) && a in l.clients && b in l.clients && a != b && l.clients[a].HasName() && l.clients[b].HasName()
    requires a !in l.waiting && b !in l.waiting && forall fd :: fd in l.waiting ==> l.waiting[fd] != id
    requires id in l.rooms && l.rooms[id].state == IDLE && id <= 2147483647
    requires var l1 := ProcessToEnd(l, a, JoinMessage(id)).lobby;
      && l1.waiting.Keys <= l1.clients.Keys && b in l1.clients
      && var l2 := ProcessToEnd(l1, b, JoinMessage(id)).lobby;
        id in l2.rooms && l2.waiting.Keys <= l2.clients.Keys && ListsRoom(row, l2, id)
    ensures row == [l.clients[b].name, l.clients[a].name, Decimal(id), "1"]
  {
    TwoJoinMessages(l, a, b, id);
    DecimalUnique(row[2], id);
  }

  // ---- New connections ----

  lemma AddAndRemove<K, V>(m: map<K, V>, k: K, v: V)
    requires k !in m
    ensures m[k := v] - {k} == m && m - {k} == m && |m[k := v]| == |m| + 1
  {
    assert m[k := v].Keys == m.Keys + {k};
    assert |m[k := v]| == |m[k := v].Keys| && |m| == |m.Keys|;
  }

  lemma NotThere<K, V>(m: map<K, V>, k: K)
    requires k !in m
    ensures m - {k} == m
  {
  }

  lemma TakeOne(l: LobbyState, fd: int, maxPlayerCount: nat)
    requires l.waiting.Keys <= l.clients.Keys && fd !in l.clients
    ensures TakeNewClient(l, fd, maxPlayerCount) ==
            if |l.clients| < maxPlayerCount then Quiet(l.(clients := l.clients[fd := Client(fd, "", 0)]))
            else Outcome(l, {fd}, None, false)
    ensures |TakeNewClient(l, fd, maxPlayerCount).lobby.clients| == |l.clients| + if |l.clients| < maxPlayerCount then 1 else 0
  {
    AddAndRemove(l.clients, fd, Client(fd, "", 0));
    assert fd !in l.waiting.Keys;
    NotThere(l.waiting, fd);
  }

  // Connections that are not in the map yet, each once.
  ghost predicate AllNew(l: LobbyState, fds: seq<int>) {
    && l.waiting.Keys <= l.clients.Keys
    && (forall i :: 0 <= i < |fds| ==> fds[i] !in l.clients)
    && forall i, j :: 0 <= i < j < |fds| ==> fds[i] != fds[j]
  }

  lemma RestNew(l: LobbyState, fds: seq<int>, maxPlayerCount: nat)
    requires fds != [] && AllNew(l, fds)
    ensures AllNew(TakeNewClient(l, fds[0], maxPlayerCount).lobby, fds[1..])
  {
    TakeOne(l, fds[0], maxPlayerCount);
    forall i | 0 <= i < |fds[1..]|
      ensures fds[1..][i] == fds[i + 1]
    {
    }
  }

  // Taking connections changes nobody else.
  lemma {:induction false} TakeAllKeeps(l: LobbyState, fds: seq<int>, maxPlayerCount: nat, fd: int)
    requires AllNew(l, fds)
    ensures var o := TakeAll(l, fds, maxPlayerCount);
      && !o.threw && o.start == None
      && o.lobby.rooms == l.rooms && o.lobby.paused == l.paused && o.lobby.waiting == l.waiting
      && (fd in l.clients ==> fd in o.lobby.clients && o.lobby.clients[fd] == l.clients[fd] && fd !in o.closed)
      && (fd !in l.clients && fd !in fds ==> fd !in o.lobby.clients && fd !in o.closed)
    decreases |fds|
  {
    if fds != [] {
      TakeOne(l, fds[0], maxPlayerCount);
      RestNew(l, fds, maxPlayerCount);
      TakeAllKeeps(TakeNewClient(l, fds[0], maxPlayerCount).lobby, fds[1..], maxPlayerCount, fd);
    }
  }

  // The connections are admitted in the order of their arrival, without a name, as long as there is
  // room below the limit; the others are closed.
  lemma {:induction false} TakeAllExact(l: LobbyState, fds: seq<int>, maxPlayerCount: nat, i: nat)
    requires AllNew(l, fds) && i < |fds|
    ensures var o := TakeAll(l, fds, maxPlayerCount);
      if |l.clients| + i < maxPlayerCount
      then fds[i] in o.lobby.clients && o.lobby.clients[fds[i]] == Client(fds[i], "", 0) && fds[i] !in o.closed
      else fds[i] !in o.lobby.clients && fds[i] in o.closed
    decreases |fds|
  {
    var fd, first := fds[0], TakeNewClient(l, fds[0], maxPlayerCount).lobby;
    TakeOne(l, fd, maxPlayerCount);
    RestNew(l, fds, maxPlayerCount);
    if i == 0 {
      assert fd !in fds[1..];
      TakeAllKeeps(first, fds[1..], maxPlayerCount, fd);
    } else {
      assert fds[i] == fds[1..][i - 1] && fds[i] != fd;
      TakeAllExact(first, fds[1..], maxPlayerCount, i - 1);
    }
  }
}
