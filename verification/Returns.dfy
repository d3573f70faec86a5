// How players come back to the lobby: what the end of a game leaves once its reports are handled.
module Returns {
  import opened Options
  import opened ProtocolMessages
  import opened Rooms
  import opened Lobby
  import opened World
  import opened WorldIndex
  import opened Places
  import opened GameHandlers
  import opened GameRuns
  import opened GameThreads
  import opened GamePlay
  import opened IdleUsersRooms
  import LobbyMessages

  // Between two handlers the lobby of every run is in the order its messages ask for.
  lemma ServerInOrder(maxPlayerCount: nat, roomCount: nat, steps: seq<Step>)
    requires IsRun(maxPlayerCount, Start(roomCount), steps)
    ensures var w := Final(maxPlayerCount, Start(roomCount), steps);
      Inv(w) && (LobbyFree(w) ==> LobbyMessages.LobbyInOrder(w.lobby))
  {
    StartOk(roomCount);
    Places.RunKeeps(maxPlayerCount, Start(roomCount), steps);
    WaitingInMap(Final(maxPlayerCount, Start(roomCount), steps));
  }

  // A client of this seat, if any, is in the map as it left its seat.
  ghost predicate Returned(w: WorldState, id: int, l: LobbyState)
    requires id in w.threads && id in w.lobby.rooms
  {
    && CameBack(w.threads[id].seat1, l.clients) && CameBack(w.threads[id].seat2, l.clients)
    && l.rooms == w.lobby.rooms[id := Room("", "", IDLE, w.lobby.rooms[id].input, [])]
    && l.waiting == w.lobby.waiting && (forall r :: r in l.paused <==> r in w.lobby.paused && r != id)
    && (forall fd :: fd in l.clients <==>
          fd in w.lobby.clients || SeatedAt(w.threads[id].seat1, fd) || SeatedAt(w.threads[id].seat2, fd))
    && (forall fd :: fd in w.lobby.clients ==> fd in l.clients && l.clients[fd] == w.lobby.clients[fd])
  }

  // Whatever a game did before it stopped, its end and the handling of its reports bring back whoever
  // is still seated and leave the room idle.
  lemma EndReturns(maxPlayerCount: nat, w: WorldState, id: int)
    requires Inv(w) && Enabled(w, End(id))
    ensures var l := Apply(maxPlayerCount, w, End(id)).lobby;
      id in l.rooms && Returned(w, id, DrainReports(l, id))
  {
    var t, room, w1 := w.threads[id], w.lobby.rooms[id], Apply(maxPlayerCount, w, End(id));
    ServerUniqueFds(w, id);
    assert RoomOk(room, true);
    LastDrained(w1.lobby, id, room.output, t.seat1, t.seat2);
    Overwrite(w.lobby.rooms, id, w1.lobby.rooms[id], Room("", "", IDLE, room.input, []));
    forall fd | fd in w.lobby.clients
      ensures !SeatedAt(t.seat1, fd) && !SeatedAt(t.seat2, fd)
    {
      assert FdAt(w, InLobby(fd)) == Some(fd);
      assert FdAt(w, InSeat(id, true)) == FdOf(t.seat1) && FdAt(w, InSeat(id, false)) == FdOf(t.seat2);
    }
  }

  // A GAME_LEAVE of one of two players ends the game and returns both to the lobby, unless the time
  // check of that message drops the other one.
  lemma LeaveReturnsBoth(maxPlayerCount: nat, w: WorldState, id: int, g: GameView, fd: int, msg: ProtocolData, now: Millis)
    returns (steps: seq<Step>)
    requires Inv(w) && id in w.threads && id in w.lobby.rooms && g.io == IO(w, id)
    requires g.BothSeated() && g.Seated(fd) && msg.methodName == GAME_LEAVE && !Silent(g, fd, now)
    ensures RunsTo(maxPlayerCount, w, id, steps, After(g, Request(fd, msg, now)).io)
    ensures var w1 := Final(maxPlayerCount, w, steps);
      && Enabled(w1, End(id)) && id in Apply(maxPlayerCount, w1, End(id)).lobby.rooms
      && var l := DrainReports(Apply(maxPlayerCount, w1, End(id)).lobby, id);
        && CameBack(g.io.thread.seat1, l.clients) && CameBack(g.io.thread.seat2, l.clients)
        && id in l.rooms && l.rooms[id].state == IDLE && l.rooms[id].userA == "" && l.rooms[id].userB == ""
  {
    ServerUniqueFds(w, id);
    var e := Request(fd, msg, now);
    steps := GameIsServerRun(maxPlayerCount, w, id, g, e);
    var w1 := Final(maxPlayerCount, w, steps);
    RequestExact(g, fd, msg, now);
    StopsIff(g, e);
    EndReturns(maxPlayerCount, w1, id);
  }
}
