// src/game_logic/game_room/RoomStructs.cpp: rooms as the lobby knows them, and what game threads report.
module Rooms {
  import opened Options

  datatype GameState = IDLE | RUNNING | PAUSED

  // A connection, identified by its file descriptor; an empty name means none was entered.
  datatype Client = Client(fd: int, name: string, denied: nat) {
    predicate HasName() { name != "" }
  }

  datatype GameStateChange = GameStateChange(newState: GameState, client1: Option<Client>, client2: Option<Client>)

  // One room: its registered users, its state, and the contents of its two queues.
  datatype Room = Room(userA: string, userB: string, state: GameState, input: seq<Client>, output: seq<GameStateChange>) {
    predicate HasUsername(name: string) { userA == name || userB == name }

    function UserCount(): nat {
      if userA == "" && userB == "" then 0 else if userA != "" && userB != "" then 2 else 1
    }

    // None is the exception of a third user.
    function AddUser(name: string): Option<Room> {
      if UserCount() >= 2 then None
      else if userA == "" then Some(this.(userA := name))
      else Some(this.(userB := name))
    }
  }

  // A game thread that has not yet pushed its final IDLE.
  datatype Thread = Thread(seat1: Option<Client>, seat2: Option<Client>, running: bool)

  const NEW_THREAD: Thread := Thread(None, None, true)

  // A game thread and the two queues it shares with the lobby.
  datatype GameIO = GameIO(thread: Thread, input: seq<Client>, output: seq<GameStateChange>)

  predicate SeatedAt(seat: Option<Client>, fd: int) {
    seat.Some? && seat.value.fd == fd
  }

  // One round of the loop of Game::_onNewClientConnect: a third client makes it throw, which ends the game.
  function TakeSeat(io: GameIO): GameIO
    requires io.input != []
  {
    var t := io.thread;
    if t.seat1.None? then io.(thread := t.(seat1 := Some(io.input[0])), input := io.input[1..])
    else if t.seat2.None? then io.(thread := t.(seat2 := Some(io.input[0])), input := io.input[1..])
    else io.(thread := t.(running := false))
  }

  // Game::_onClientDisconnect: destroys the client, then ends the game or reports PAUSED.
  function LeaveSeat(io: GameIO, fd: int): GameIO {
    var seat1 := if SeatedAt(io.thread.seat1, fd) then None else io.thread.seat1;
    var seat2 := if SeatedAt(io.thread.seat2, fd) then None else io.thread.seat2;
    if seat1.None? && seat2.None? then io.(thread := Thread(None, None, false))
    else io.(thread := Thread(seat1, seat2, io.thread.running), output := io.output + [GameStateChange(PAUSED, None, None)])
  }

  // GAME_LEAVE, or an exception that unwinds to the game loop.
  function StopGame(io: GameIO): GameIO {
    io.(thread := io.thread.(running := false))
  }

  function Refused(seat: Option<Client>, fd: int): Option<Client> {
    if SeatedAt(seat, fd) then Some(seat.value.(denied := seat.value.denied + 1)) else seat
  }

  // ProtocolClient::sendReqDeniedMsg to a seated client.
  function RefuseSeat(io: GameIO, fd: int): GameIO {
    io.(thread := io.thread.(seat1 := Refused(io.thread.seat1, fd), seat2 := Refused(io.thread.seat2, fd)))
  }

  // What the destructor of Game pushes.
  function LastChange(t: Thread): GameStateChange {
    GameStateChange(IDLE, t.seat1, t.seat2)
  }

  const MAX_REQ_DENIED_CNT: nat := 5

  class GameRoom {
    const roomId: int
    var usernameA: string
    var usernameB: string
    var gameState: GameState
    var gameInput: seq<Client>
    var gameOutput: seq<GameStateChange>

    function View(): Room
      reads this
    {
      Room(usernameA, usernameB, gameState, gameInput, gameOutput)
    }

    constructor (roomId: int)
      ensures this.roomId == roomId && View() == Room("", "", IDLE, [], [])
    {
      this.roomId := roomId;
      usernameA, usernameB, gameState := "", "", IDLE;
      gameInput, gameOutput := [], [];
    }

    method HasUsername(username: string) returns (found: bool)
      ensures found == View().HasUsername(username)
    {
      found := usernameA == username || usernameB == username;
    }

    method SetGameState(state: GameState)
      modifies this
      ensures View() == old(View()).(state := state)
    {
      gameState := state;
    }

    method AddUser(username: string) returns (ok: bool)
      modifies this
      ensures var r := old(View()).AddUser(username);
        ok == r.Some? && View() == if ok then r.value else old(View())
    {
      if View().UserCount() >= 2 {
        return false;
      }
      if usernameA == "" {
        usernameA := username;
      } else {
        usernameB := username;
      }
      ok := true;
    }

    method RemoveUser(username: string)
      modifies this
      ensures View().state == old(View().state) && View().input == old(View().input) && View().output == old(View().output)
      ensures username != "" ==> !View().HasUsername(username)
      ensures forall u :: u != "" && u != username ==> View().HasUsername(u) == old(View().HasUsername(u))
    {
      if usernameA == username {
        usernameA := "";
      }
      if usernameB == username {
        usernameB := "";
      }
    }

    method RemoveAllUsers()
      modifies this
      ensures View() == old(View()).(userA := "", userB := "")
    {
      usernameA := "";
      usernameB := "";
    }
  }
}
