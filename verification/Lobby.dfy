// The handlers of src/game_logic/game_server/IdleUsersRoom.cpp as functions of the lobby's state.
module Lobby {
  import opened Options
  import opened ProtocolMessages
  import opened Rooms

  datatype LobbyState = LobbyState(
    clients: map<int, Client>,   // _clientsMap
    rooms: map<int, Room>,       // _gameRooms
    paused: set<int>,            // _pausedGameRooms, by room id
    waiting: map<int, int>)      // _waitingToJoinGame, by client fd

  datatype GameStart = GameStart(room: int, first: int, second: int)

  // What a handler leaves behind: the clients it destroyed, a game thread it started
  // (with the two clients still to be sent), and whether it threw.
  datatype Outcome = Outcome(lobby: LobbyState, closed: set<int>, start: Option<GameStart>, threw: bool)

  function Quiet(l: LobbyState): Outcome {
    Outcome(l, {}, None, false)
  }

  // _onClientDisconnect
  function Disconnect(l: LobbyState, fd: int): Outcome {
    if fd in l.clients then
      Outcome(l.(clients := l.clients - {fd}, waiting := l.waiting - {fd}), {fd}, None, false)
    else Quiet(l)
  }

  // _denyRequest
  function Deny(l: LobbyState, fd: int): Outcome
    requires fd in l.clients
  {
    var c := l.clients[fd];
    if c.denied >= MAX_REQ_DENIED_CNT then Disconnect(l, fd)
    else Quiet(l.(clients := l.clients[fd := c.(denied := c.denied + 1)]))
  }

  function DenyTimes(l: LobbyState, fd: int, times: nat): LobbyState
    decreases times
  {
    if times == 0 || fd !in l.clients then l else DenyTimes(Deny(l, fd).lobby, fd, times - 1)
  }

  // Of a new client's denials the first five are counted and the sixth closes it.
  lemma {:induction false} DenialsClose(l: LobbyState, fd: int, times: nat)
    requires fd in l.clients && l.clients[fd].denied <= MAX_REQ_DENIED_CNT
    ensures fd in DenyTimes(l, fd, times).clients <==> l.clients[fd].denied + times <= MAX_REQ_DENIED_CNT
    decreases times
  {
    if times > 0 && l.clients[fd].denied < MAX_REQ_DENIED_CNT {
      DenialsClose(Deny(l, fd).lobby, fd, times - 1);
    } else if times > 0 {
      assert DenyTimes(l, fd, times) == DenyTimes(Deny(l, fd).lobby, fd, times - 1);
    }
  }

  // One round of the loop of _onNewClientConnect.
  function TakeNewClient(l: LobbyState, fd: int, maxPlayerCount: nat): Outcome {
    var l' := l.(clients := l.clients[fd := Client(fd, "", 0)]);
    if |l'.clients| > maxPlayerCount then Disconnect(l', fd) else Quiet(l')
  }

  predicate NameInLobby(l: LobbyState, fd: int, name: string) {
    exists other :: other in l.clients && other != fd && l.clients[other].HasName() && l.clients[other].name == name
  }

  predicate NameInRooms(l: LobbyState, name: string) {
    exists id :: id in l.rooms && l.rooms[id].HasUsername(name)
  }

  // _enterUsername; the branch that rejoins a paused game cannot be taken (see IdleUsersRoom).
  function EnterUsername(l: LobbyState, fd: int, name: string): Outcome
    requires fd in l.clients
  {
    if NameInLobby(l, fd, name) || NameInRooms(l, name) then Deny(l, fd)
    else Quiet(l.(clients := l.clients[fd := l.clients[fd].(name := name)]))
  }

  ghost predicate SomeoneWaits(l: LobbyState, id: int) {
    exists fd :: fd in l.waiting && l.waiting[fd] == id
  }

  ghost function Waiter(l: LobbyState, id: int): (fd: int)
    requires SomeoneWaits(l, id)
    ensures fd in l.waiting && l.waiting[fd] == id
  {
    var fd :| fd in l.waiting && l.waiting[fd] == id;
    fd
  }

  // _setGameAsRunning with two users; the thrown exception of addUser leaves the room as it is.
  function StartRoom(l: LobbyState, id: int, name1: string, name2: string): Outcome
    requires id in l.rooms
  {
    var r0 := l.rooms[id].(state := RUNNING);
    var r1 := r0.AddUser(name1);
    if r1.None? then Outcome(l.(rooms := l.rooms[id := r0]), {}, None, true)
    else
      var r2 := r1.value.AddUser(name2);
      if r2.None? then Outcome(l.(rooms := l.rooms[id := r1.value]), {}, None, true)
      else Quiet(l.(rooms := l.rooms[id := r2.value], paused := l.paused - {id}))
  }

  // _joinGameRoom up to the start of the thread; gameId is the result of std::stoi.
  ghost function Join(l: LobbyState, fd: int, gameId: Option<int>): Outcome
    requires fd in l.clients && l.waiting.Keys <= l.clients.Keys
  {
    if gameId.None? || gameId.value !in l.rooms || l.rooms[gameId.value].state != IDLE then Deny(l, fd)
    else
      var id := gameId.value;
      if !SomeoneWaits(l, id) then Quiet(l.(waiting := l.waiting[fd := id]))
      else
        var other := Waiter(l, id);
        if other == fd then Deny(l, fd)
        else
          var started := StartRoom(l, id, l.clients[fd].name, l.clients[other].name);
          if started.threw then started else started.(start := Some(GameStart(id, fd, other)))
  }

  // _sendClientToGameThread
  function SendClient(l: LobbyState, id: int, fd: int): LobbyState
    requires id in l.rooms && fd in l.clients
  {
    var room := l.rooms[id];
    LobbyState(l.clients - {fd}, l.rooms[id := room.(input := room.input + [l.clients[fd]])], l.paused, l.waiting - {fd})
  }

  // _addClientBack
  function AddBack(l: LobbyState, client: Option<Client>): LobbyState {
    if client.None? then l else l.(clients := l.clients[client.value.fd := client.value])
  }

  // One round of the loop of _onGameStateChange.
  function StateChange(l: LobbyState, id: int): LobbyState
    requires id in l.rooms && l.rooms[id].output != []
  {
    var room := l.rooms[id];
    var change := room.output[0];
    var popped := room.(output := room.output[1..]);
    match change.newState
    case IDLE =>
      var back := AddBack(AddBack(l, change.client1), change.client2);
      back.(rooms := l.rooms[id := popped.(state := IDLE, userA := "", userB := "")], paused := l.paused - {id})
    case RUNNING => l.(rooms := l.rooms[id := popped])
    case PAUSED => l.(rooms := l.rooms[id := popped.(state := PAUSED)], paused := l.paused + {id})
  }

  // ---- std::stoi ----

  predicate IsSpace(c: char) {
    c == ' ' || '\t' <= c <= '\r'
  }

  predicate IsDigit(c: char) {
    '0' <= c <= '9'
  }

  function DigitsPrefix(s: string, acc: int): int
    decreases |s|
  {
    if s == "" || !IsDigit(s[0]) then acc else DigitsPrefix(s[1..], acc * 10 + (s[0] as int - '0' as int))
  }

  // Leading space, an optional sign and at least one digit; what follows the digits is ignored.
  function Stoi(s: string): Option<int>
    decreases |s|
  {
    if s == "" then None
    else if IsSpace(s[0]) then Stoi(s[1..])
    else
      var negative := s[0] == '-';
      var digits := if negative || s[0] == '+' then s[1..] else s;
      if digits == "" || !IsDigit(digits[0]) then None
      else
        var n := if negative then -DigitsPrefix(digits, 0) else DigitsPrefix(digits, 0);
        if -0x8000_0000 <= n < 0x8000_0000 then Some(n) else None
  }

  // _processClientMessage
  ghost function Process(l: LobbyState, fd: int, msg: ProtocolData): Outcome
    requires fd in l.clients && l.waiting.Keys <= l.clients.Keys
  {
    match msg.methodName
    case TERMINATE_CONNECTION => Disconnect(l, fd)
    case ENTER_USERNAME =>
      if msg.HasField("username") && !l.clients[fd].HasName() then EnterUsername(l, fd, msg.GetField("username")) else Deny(l, fd)
    case GET_ROOM_LIST => if l.clients[fd].HasName() then Quiet(l) else Deny(l, fd)
    case JOIN_GAME =>
      if msg.HasField("game_id") && l.clients[fd].HasName() then Join(l, fd, Stoi(msg.GetField("game_id"))) else Deny(l, fd)
    case _ => Deny(l, fd)
  }

  // A request for this name.
  function NameMessage(name: string): ProtocolData {
    ProtocolData(ENTER_USERNAME, map["username" := name])
  }
}
