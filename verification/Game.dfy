// src/game_logic/game_room/Game.cpp: the game thread's object, updated in place.
module Games {
  import opened Options
  import opened Cycles
  import opened GameGraphs
  import opened ProtocolMessages
  import opened Rooms
  import opened GameRules
  import opened GameHandlers

  class Player {
    const myGraph: GameGraph
    var client: Option<Client>
    var lastSeen: Millis

    constructor ()
      ensures fresh(myGraph) && fresh(myGraph.adj) && myGraph.n == GAME_NODE_NUM
      ensures myGraph.Valid() && myGraph.Edges() == {} && client == None && lastSeen == 0
    {
      myGraph := new GameGraph(GAME_NODE_NUM);
      client, lastSeen := None, 0;
    }
  }

  class Game {
    const player1: Player
    const player2: Player
    var isRunning: bool
    var isPlayerOneTurn: bool
    var isPaused: bool
    var gameInput: seq<Client>
    var gameOutput: seq<GameStateChange>
    var held: set<int>          // the descriptors of players in the epoll table

    ghost predicate Apart()
      reads this, player1, player2
    {
      && player1 != player2 && player1.myGraph.adj != player2.myGraph.adj
      && player1.myGraph.n == GAME_NODE_NUM && player2.myGraph.n == GAME_NODE_NUM
    }

    ghost predicate Valid()
      reads this, player1, player2, player1.myGraph.adj, player2.myGraph.adj
    {
      && Apart() && player1.myGraph.Valid() && player2.myGraph.Valid()
      && LoopFree(player1.myGraph.Edges()) && LoopFree(player2.myGraph.Edges())
    }

    ghost function TheBoard(): Board
      requires player1.myGraph.Valid() && player2.myGraph.Valid()
      reads this, player1.myGraph.adj, player2.myGraph.adj
    {
      Board(player1.myGraph.Edges(), player2.myGraph.Edges(), isPlayerOneTurn)
    }

    function TheIO(): GameIO
      reads this, player1, player2
    {
      GameIO(Thread(player1.client, player2.client, isRunning), gameInput, gameOutput)
    }

    ghost function View(): GameView
      requires player1.myGraph.Valid() && player2.myGraph.Valid()
      reads this, player1, player2, player1.myGraph.adj, player2.myGraph.adj
    {
      GameView(TheBoard(), TheIO(), isPaused, player1.lastSeen, player2.lastSeen, held)
    }

    constructor ()
      ensures Valid() && View() == NEW_GAME
      ensures fresh(player1) && fresh(player2) && fresh(player1.myGraph.adj) && fresh(player2.myGraph.adj)
    {
      player1 := new Player();
      player2 := new Player();
      isRunning, isPlayerOneTurn, isPaused := true, true, false;
      gameInput, gameOutput := [], [];
      held := {};
    }

    // None is the exception for a descriptor that nobody seated has.
    method GetPlayer(fd: int) returns (player: Option<Player>)
      ensures player.None? <==> !SeatedAt(player1.client, fd) && !SeatedAt(player2.client, fd)
      ensures player.Some? ==> player.value in {player1, player2} && SeatedAt(player.value.client, fd)
      ensures player == Some(player2) ==> player2 == player1 || !SeatedAt(player1.client, fd)
    {
      if SeatedAt(player1.client, fd) {
        return Some(player1);
      } else if SeatedAt(player2.client, fd) {
        return Some(player2);
      } else {
        return None;
      }
    }

    method OnClientDisconnect(fd: int)
      requires Valid()
      modifies this, player1, player2
      ensures Valid() && View() == LoseClient(old(View()), fd)
    {
      if SeatedAt(player1.client, fd) {
        player1.client := None;
      }
      if SeatedAt(player2.client, fd) {
        player2.client := None;
      }
      if player1.client.None? && player2.client.None? {
        isRunning := false;
        return;
      }
      gameOutput := gameOutput + [GameStateChange(PAUSED, None, None)];
      isPaused := true;
    }

    method DenyRequest(fd: int) returns (stopped: bool)
      requires Valid() && UniqueFds(TheIO()) && View().Seated(fd)
      modifies this, player1, player2
      ensures Valid() && Handled(View(), stopped) == DenyPlayer(old(View()), fd)
    {
      var found := GetPlayer(fd);
      var player := found.value;
      var c := player.client.value;
      stopped := c.denied >= MAX_REQ_DENIED_CNT;
      if stopped {
        OnClientDisconnect(fd);
      } else {
        player.client := Some(c.(denied := c.denied + 1));
      }
    }

    method UpdateClientLastSeen(fd: int, now: Millis)
      requires Valid() && View().Seated(fd)
      modifies this, player1, player2
      ensures Valid() && View() == UpdateSeen(old(View()), fd, now)
    {
      var found := GetPlayer(fd);
      var player := found.value;
      player.lastSeen := now;
      if player1.lastSeen != 0 && Elapsed(player.lastSeen, player1.lastSeen) > MAX_INACTIVITY_MS {
        if player1.client.Some? {
          OnClientDisconnect(player1.client.value.fd);
        }
      }
      if player2.lastSeen != 0 && Elapsed(player.lastSeen, player2.lastSeen) > MAX_INACTIVITY_MS {
        if player2.client.Some? {
          OnClientDisconnect(player2.client.value.fd);
        }
      }
    }

    // _clearGame: whose turn it is stays.
    method ClearGame()
      requires Apart() && player1.myGraph.Valid() && player2.myGraph.Valid()
      modifies player1.myGraph.adj, player2.myGraph.adj
      ensures player1.myGraph.Valid() && player2.myGraph.Valid()
      ensures TheBoard() == InitBoard(isPlayerOneTurn)
    {
      player1.myGraph.Clear();
      player2.myGraph.Clear();
    }

    // From addUndirectedEdge on: the mover's own graph grows, the turn passes, a loss clears both graphs.
    method PlayEdge(source: nat, destination: nat)
      requires Valid() && Accepted(GAME_NODE_NUM, TheBoard(), Attempt(isPlayerOneTurn, source, destination))
      modifies this, player1.myGraph.adj, player2.myGraph.adj
      ensures Valid()
      ensures View() == old(View()).(board := Play(GAME_NODE_NUM, old(TheBoard()), Attempt(old(isPlayerOneTurn), source, destination)))
    {
      ghost var a := Attempt(isPlayerOneTurn, source, destination);
      ghost var before := TheBoard();
      var player := if isPlayerOneTurn then player1 else player2;
      player.myGraph.AddUndirectedEdge(source, destination);
      assert player.myGraph.Edges() == before.OnTurn() + UndirectedEdge(source, destination);
      var playerLost := player.myGraph.HasCycleOfLength3();
      assert playerLost <==> Loses(before, a);
      isPlayerOneTurn := !isPlayerOneTurn;
      if playerLost {
        ClearGame();
      }
      assert TheBoard() == Play(GAME_NODE_NUM, before, a);
    }

    // Whether the edge is taken in neither graph, and possible in the six nodes.
    method FreeEdge(source: nat, destination: nat) returns (free: bool)
      requires Valid()
      ensures free == (IsValidEdge(GAME_NODE_NUM, source, destination)
                       && (source, destination) !in TheBoard().one && (source, destination) !in TheBoard().two)
    {
      var valid, inOne := player1.myGraph.HasUndirectedEdge(source, destination);
      var _, inTwo := player2.myGraph.HasUndirectedEdge(source, destination);
      free := valid && !inOne && !inTwo;
    }

    method ProcessGameCommand(fd: int, msg: ProtocolData) returns (stopped: bool)
      requires Valid() && UniqueFds(TheIO()) && View().Seated(fd) && View().Ready()
      modifies this, player1, player2, player1.myGraph.adj, player2.myGraph.adj
      ensures Valid() && Handled(View(), stopped) == GameCommand(old(View()), fd, msg)
    {
      if isPaused {
        stopped := DenyRequest(fd);
        return;
      }
      var found := GetPlayer(fd);
      var player := found.value;
      if !isPlayerOneTurn && player1.client.value.fd == player.client.value.fd {
        stopped := DenyRequest(fd);
        return;
      }
      if isPlayerOneTurn && player2.client.value.fd == player.client.value.fd {
        stopped := DenyRequest(fd);
        return;
      }
      if !msg.HasField("add_edge") {
        stopped := DenyRequest(fd);
        return;
      }
      var edge := msg.GetField("add_edge");
      if |edge| < 3 {
        isRunning := false;
        return true;
      }
      var numbers := EdgeNumbers(edge);
      if numbers.None? {
        stopped := DenyRequest(fd);
        return;
      }
      var free := FreeEdge(numbers.value.0, numbers.value.1);
      if !free {
        stopped := DenyRequest(fd);
        return;
      }
      PlayEdge(numbers.value.0, numbers.value.1);
      stopped := false;
    }

    method ProcessClientMessage(fd: int, msg: ProtocolData, now: Millis) returns (stopped: bool)
      requires Valid() && UniqueFds(TheIO()) && View().Seated(fd) && (msg.methodName == GAME_COMMAND ==> View().Ready())
      modifies this, player1, player2, player1.myGraph.adj, player2.myGraph.adj
      ensures Valid() && Handled(View(), stopped) == HandleMessage(old(View()), fd, msg, now)
    {
      StillSeated(View(), fd, msg);
      match msg.methodName {
        case GAME_COMMAND => stopped := ProcessGameCommand(fd, msg);
        case GAME_LEAVE =>
          isRunning := false;
          stopped := false;
        case GAME_PING => stopped := false;
        case _ => stopped := DenyRequest(fd);
      }
      if !stopped {
        UpdateClientLastSeen(fd, now);
      }
    }

    method OnClientWrite(fd: int, parsed: Option<seq<ProtocolData>>, clock: nat -> Millis)
      requires Valid() && UniqueFds(TheIO()) && (parsed.Some? ==> Defined(View(), parsed.value))
      modifies this, player1, player2, player1.myGraph.adj, player2.myGraph.adj
      ensures Valid() && View() == HandleWrite(old(View()), fd, parsed, clock)
    {
      var found := GetPlayer(fd);
      if found.None? {
        isRunning := false;
        return;
      }
      if parsed.None? {
        OnClientDisconnect(fd);
        return;
      }
      var msgs := parsed.value;
      for i := 0 to |msgs|
        invariant Valid() && UniqueFds(TheIO()) && View().Seated(fd) && Defined(View(), msgs[i..])
        invariant HandleBatch(View(), fd, msgs[i..], clock, i) == HandleBatch(old(View()), fd, msgs, clock, 0)
      {
        GameHandlers.MessageKeeps(View(), fd, msgs[i], clock(i));
        BatchStep(View(), fd, msgs, clock, i);
        var stopped := ProcessClientMessage(fd, msgs[i], clock(i));
        if stopped {
          return;
        }
      }
    }

    // Takes the next client from the queue into a free seat; a third player makes it throw.
    method TakeFreeSeat() returns (threw: bool)
      requires Valid() && gameInput != []
      modifies this, player1, player2
      ensures Valid() && threw == old(View()).BothSeated()
      ensures View() == old(View()).(io := TakeSeat(old(TheIO())))
    {
      threw := false;
      if player1.client.None? {
        player1.client := Some(gameInput[0]);
        gameInput := gameInput[1..];
      } else if player2.client.None? {
        player2.client := Some(gameInput[0]);
        gameInput := gameInput[1..];
      } else {
        isRunning := false;
        threw := true;
      }
    }

    // One round of the loop below.
    method SeatNextClient(now1: Millis, now2: Millis) returns (stopped: bool)
      requires Valid() && gameInput != []
      modifies this, player1, player2
      ensures Valid() && Handled(View(), stopped) == Arrive(old(View()), now1, now2)
    {
      var fd := gameInput[0].fd;
      var threw := TakeFreeSeat();
      if threw {
        return true;
      }
      if fd in held {
        isRunning := false;
        return true;
      }
      held := held + {fd};
      if player1.client.Some? && player2.client.Some? {
        isPaused := false;
        UpdateClientLastSeen(player1.client.value.fd, now1);
        if player2.client.None? {
          return true;
        }
        UpdateClientLastSeen(player2.client.value.fd, now2);
      }
      stopped := false;
    }

    method OnNewClientConnect(clock: nat -> Millis)
      requires Valid() && UniqueFds(TheIO())
      modifies this, player1, player2
      ensures Valid() && View() == ArriveAll(old(View()), clock, 0)
    {
      var k := 0;
      while gameInput != []
        invariant Valid() && UniqueFds(TheIO()) && ArriveAll(View(), clock, k) == ArriveAll(old(View()), clock, 0)
        decreases |gameInput|
      {
        ArriveKeeps(View(), clock(k), clock(k + 1));
        var stopped := SeatNextClient(clock(k), clock(k + 1));
        if stopped {
          return;
        }
        k := k + 2;
      }
    }

    // removeDescriptor for a hung-up descriptor, behind its handlers.
    method Forget(fd: int)
      requires Valid()
      modifies this
      ensures Valid() && View() == old(View()).(held := old(held) - {fd})
    {
      held := held - {fd};
    }

    // The destructor moves whoever is still seated into the last report.
    method Destroy()
      requires Valid()
      modifies this, player1, player2
      ensures Valid()
      ensures var t := old(TheIO()).thread;
        View() == old(View()).(io := GameIO(Thread(None, None, t.running), old(gameInput), old(gameOutput) + [LastChange(t)]))
    {
      gameOutput := gameOutput + [GameStateChange(IDLE, player1.client, player2.client)];
      player1.client := None;
      player2.client := None;
    }
  }
}
