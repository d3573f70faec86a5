// Exactly when two live clients come to share a name: which step does it, and which ends of
// games make it possible.
module NameClashes {
  import opened Options
  import opened ProtocolMessages
  import opened Rooms
  import opened Lobby
  import opened World
  import opened WorldIndex
  import opened Places
  import opened Names

  // An ENTER_USERNAME that the scans let pass.
  ghost predicate AcceptedName(w: WorldState, fd: int, msg: ProtocolData) {
    && msg.methodName == ENTER_USERNAME && msg.HasField("username")
    && fd in w.lobby.clients && !w.lobby.clients[fd].HasName()
    && !NameInLobby(w.lobby, fd, msg.GetField("username")) && !NameInRooms(w.lobby, msg.GetField("username"))
  }

  // Such a message with the name of a client that is in some room's queue, seat or report.
  ghost predicate TakesLiveName(w: WorldState, step: Step) {
    && step.Message? && AcceptedName(w, step.fd, step.msg) && step.msg.GetField("username") != ""
    && exists id, other :: other != step.fd && InRoom(w, id, other, step.msg.GetField("username"))
  }

  // No name becomes live at a client that did not have it.
  ghost predicate NoNewNames(w: WorldState, w': WorldState) {
    forall f, n :: n != "" && Live(w', f, n) ==> Live(w, f, n)
  }

  lemma RoomsKeepNames(w: WorldState, w': WorldState)
    requires forall i, f, n :: InRoom(w', i, f, n) ==> InRoom(w, i, f, n)
    requires forall f, n :: n != "" && InMap(w', f, n) ==> Live(w, f, n)
    ensures NoNewNames(w, w')
  {
  }

  lemma DropNoNames(w: WorldState, fd: int)
    ensures NoNewNames(w, Finish(w, Disconnect(w.lobby, fd)))
  {
    RoomsKeepNames(w, Finish(w, Disconnect(w.lobby, fd)));
  }

  lemma DenyNoNames(w: WorldState, fd: int)
    requires fd in w.lobby.clients
    ensures NoNewNames(w, Finish(w, Deny(w.lobby, fd)))
  {
    RoomsKeepNames(w, Finish(w, Deny(w.lobby, fd)));
  }

  lemma StartNoNames(w: WorldState, id: int, fd: int, other: int)
    requires LobbyOk(w) && LobbyFree(w) && id in w.lobby.rooms && w.lobby.rooms[id].state == IDLE
    requires fd in w.lobby.clients && w.lobby.clients[fd].HasName()
    requires other in w.lobby.clients && w.lobby.clients[other].HasName()
    ensures var o := StartRoom(w.lobby, id, w.lobby.clients[fd].name, w.lobby.clients[other].name);
      NoNewNames(w, Finish(w, o.(start := Some(GameStart(id, fd, other)))))
  {
    assert RoomOk(w.lobby.rooms[id], id in w.threads);
    StartShape(w.lobby, id, w.lobby.clients[fd].name, w.lobby.clients[other].name);
    var o := StartRoom(w.lobby, id, w.lobby.clients[fd].name, w.lobby.clients[other].name);
    RoomsKeepNames(w, Finish(w, o.(start := Some(GameStart(id, fd, other)))));
  }

  lemma JoinNoNames(w: WorldState, fd: int, gameId: Option<int>)
    requires LobbyOk(w) && LobbyFree(w) && fd in w.lobby.clients && w.lobby.clients[fd].HasName()
    requires w.lobby.waiting.Keys <= w.lobby.clients.Keys
    ensures NoNewNames(w, Finish(w, Join(w.lobby, fd, gameId)))
  {
    var l := w.lobby;
    DenyNoNames(w, fd);
    if gameId.Some? && gameId.value in l.rooms && l.rooms[gameId.value].state == IDLE {
      if !SomeoneWaits(l, gameId.value) {
        RoomsKeepNames(w, Finish(w, Join(l, fd, gameId)));
      } else if Waiter(l, gameId.value) != fd {
        StartNoNames(w, gameId.value, fd, Waiter(l, gameId.value));
      }
    }
  }

  lemma MessageNoNames(w: WorldState, fd: int, msg: ProtocolData)
    requires LobbyOk(w) && LobbyFree(w) && fd in w.lobby.clients && w.lobby.waiting.Keys <= w.lobby.clients.Keys
    requires !AcceptedName(w, fd, msg)
    ensures NoNewNames(w, Finish(w, Process(w.lobby, fd, msg)))
  {
    DropNoNames(w, fd);
    DenyNoNames(w, fd);
    if msg.methodName == JOIN_GAME && msg.HasField("game_id") && w.lobby.clients[fd].HasName() {
      JoinNoNames(w, fd, Stoi(msg.GetField("game_id")));
    } else if msg.methodName == GET_ROOM_LIST && w.lobby.clients[fd].HasName() {
      RoomsKeepNames(w, Finish(w, Process(w.lobby, fd, msg)));
    }
  }

  lemma StepNoNames(maxPlayerCount: nat, w: WorldState, step: Step)
    requires Inv(w) && Enabled(w, step) && !(step.Message? && AcceptedName(w, step.fd, step.msg))
    ensures NoNewNames(w, Apply(maxPlayerCount, w, step))
  {
    var w' := Apply(maxPlayerCount, w, step);
    match step
    case Message(fd, msg) => MessageNoNames(w, fd, msg);
    case Drop(fd) => DropNoNames(w, fd);
    case Accept(_) => RoomsKeepNames(w, w');
    case TakeNew => RoomsKeepNames(w, w');
    case Send =>
      SendRooms(w);
      assert InMap(w, w.sending[0].fd, w.lobby.clients[w.sending[0].fd].name);
    case HandleChange(id) =>
      ReportRooms(w, id);
      RoomsKeepNames(w, w');
    case _ =>
      GameStepRooms(maxPlayerCount, w, step);
      RoomsKeepNames(w, w');
  }

  // After an accepted name its sender has it, and everybody else is as before.
  lemma NameEntered(w: WorldState, fd: int, msg: ProtocolData)
    requires LobbyFree(w) && fd in w.lobby.clients && w.lobby.waiting.Keys <= w.lobby.clients.Keys && AcceptedName(w, fd, msg)
    ensures var w' := Finish(w, Process(w.lobby, fd, msg));
      && (forall i, f, n :: InRoom(w', i, f, n) <==> InRoom(w, i, f, n))
      && (forall f, n :: InMap(w', f, n) <==> if f == fd then n == msg.GetField("username") else InMap(w, f, n))
  {
  }

  lemma NameExact(w: WorldState, fd: int, msg: ProtocolData)
    requires Inv(w) && DistinctNames(w) && Enabled(w, Message(fd, msg)) && AcceptedName(w, fd, msg)
    ensures DistinctNames(Finish(w, Process(w.lobby, fd, msg))) <==> !TakesLiveName(w, Message(fd, msg))
  {
    var name := msg.GetField("username");
    var w' := Finish(w, Process(w.lobby, fd, msg));
    NameEntered(w, fd, msg);
    assert InMap(w', fd, name) && Live(w', fd, name);
    if TakesLiveName(w, Message(fd, msg)) {
      var id, other :| other != fd && InRoom(w, id, other, name);
      assert InRoom(w', id, other, name) && Live(w', other, name);
    } else {
      forall f, g, n | n != "" && Live(w', f, n) && Live(w', g, n)
        ensures f == g
      {
        NameHeld(w, w', fd, name, f, n);
        NameHeld(w, w', fd, name, g, n);
      }
    }
  }

  // Who has a name after fd took one that nobody else in a room has.
  lemma NameHeld(w: WorldState, w': WorldState, fd: int, name: string, f: int, n: string)
    requires n != "" && Live(w', f, n)
    requires forall i, g, m :: InRoom(w', i, g, m) <==> InRoom(w, i, g, m)
    requires forall g, m :: InMap(w', g, m) <==> if g == fd then m == name else InMap(w, g, m)
    requires name != "" ==> forall i, g :: g != fd ==> !InRoom(w, i, g, name)
    requires forall g :: name != "" && g != fd ==> !InMap(w, g, name)
    ensures if n == name then f == fd else Live(w, f, n)
  {
  }

  // One step makes two live clients share a name exactly when it is an accepted ENTER_USERNAME
  // with the name of another client that is still in some room's queue, seat or report.
  lemma DistinctExact(maxPlayerCount: nat, w: WorldState, step: Step)
    requires Inv(w) && DistinctNames(w) && Enabled(w, step)
    ensures DistinctNames(Apply(maxPlayerCount, w, step)) <==> !TakesLiveName(w, step)
  {
    if step.Message? && AcceptedName(w, step.fd, step.msg) {
      NameExact(w, step.fd, step.msg);
    } else {
      StepNoNames(maxPlayerCount, w, step);
    }
  }

  // ---- Which ends of games make a clash possible ----

  // w' follows from w by some run in which no game ends.
  ghost predicate Continues(maxPlayerCount: nat, w: WorldState, w': WorldState) {
    exists steps :: NoEnds(steps) && IsRun(maxPlayerCount, w, steps) && Final(maxPlayerCount, w, steps) == w'
  }

  ghost predicate NoEnds(steps: seq<Step>) {
    forall i :: 0 <= i < |steps| ==> !steps[i].End?
  }

  lemma ContinuesHere(maxPlayerCount: nat, w: WorldState)
    ensures Continues(maxPlayerCount, w, w)
  {
    assert IsRun(maxPlayerCount, w, []) && Final(maxPlayerCount, w, []) == w && NoEnds([]);
  }

  lemma ContinuesStep(maxPlayerCount: nat, w: WorldState, step: Step, w': WorldState)
    requires Enabled(w, step) && !step.End? && Continues(maxPlayerCount, Apply(maxPlayerCount, w, step), w')
    ensures Continues(maxPlayerCount, w, w')
  {
    var w1 := Apply(maxPlayerCount, w, step);
    var rest :| NoEnds(rest) && IsRun(maxPlayerCount, w1, rest) && Final(maxPlayerCount, w1, rest) == w';
    var steps := [step] + rest;
    assert steps[1..] == rest;
    assert NoEnds(steps) && IsRun(maxPlayerCount, w, steps) && Final(maxPlayerCount, w, steps) == w';
  }

  // Someone with this name is in room id's queue, or still to be sent there.
  ghost predicate OnTheWay(w: WorldState, id: int, name: string) {
    && id in w.lobby.rooms
    && ((exists f :: InQueue(w.lobby.rooms[id].input, f, name))
        || (exists i :: 0 <= i < |w.sending| && w.sending[i].room == id && InMap(w, w.sending[i].fd, name)))
  }

  // Room id's thread is gone, someone is on the way to it, and no other room has that one's name.
  ghost predicate Stranded(w: WorldState, id: int, name: string) {
    && Inv(w) && id !in w.threads && name != "" && OnTheWay(w, id, name)
    && forall i :: Registered(w, i, name) ==> i == id
  }

  lemma SendStranded(maxPlayerCount: nat, w: WorldState, id: int, name: string)
    requires Stranded(w, id, name) && w.sending != []
    ensures Enabled(w, Send) && Stranded(Apply(maxPlayerCount, w, Send), id, name)
  {
    var w' := Apply(maxPlayerCount, w, Send);
    StepKeeps(maxPlayerCount, w, Send);
    var room, fd := w.sending[0].room, w.sending[0].fd;
    QueuePush(w.lobby.rooms[room].input, w.lobby.clients[fd]);
    assert forall i, n :: Registered(w', i, n) <==> Registered(w, i, n);
    if f :| InQueue(w.lobby.rooms[id].input, f, name) {
      assert InQueue(w'.lobby.rooms[id].input, f, name);
    } else {
      var i :| 0 <= i < |w.sending| && w.sending[i].room == id && InMap(w, w.sending[i].fd, name);
      if i == 0 {
        assert InQueue(w'.lobby.rooms[id].input, fd, name);
      } else {
        assert w'.sending[i - 1] == w.sending[i] && w.sending[i].fd != fd;
        assert InMap(w', w'.sending[i - 1].fd, name);
      }
    }
  }

  lemma ReportStranded(maxPlayerCount: nat, w: WorldState, id: int, name: string)
    requires Stranded(w, id, name) && w.sending == [] && w.lobby.rooms[id].state != IDLE
    ensures Enabled(w, HandleChange(id))
    ensures var w' := Apply(maxPlayerCount, w, HandleChange(id));
      && Stranded(w', id, name) && w'.sending == []
      && |w'.lobby.rooms[id].output| < |w.lobby.rooms[id].output|
  {
    assert RoomOk(w.lobby.rooms[id], false);
    HeadReport(w.lobby.rooms[id], false);
    var w' := Apply(maxPlayerCount, w, HandleChange(id));
    StepKeeps(maxPlayerCount, w, HandleChange(id));
    assert w'.lobby.rooms[id].input == w.lobby.rooms[id].input;
    var f :| InQueue(w.lobby.rooms[id].input, f, name);
    assert InQueue(w'.lobby.rooms[id].input, f, name);
    assert forall i :: Registered(w', i, name) ==> Registered(w, i, name);
  }

  lemma DropStranded(maxPlayerCount: nat, w: WorldState, id: int, name: string, fd: int)
    requires Stranded(w, id, name) && w.sending == [] && fd in w.lobby.clients
    ensures Enabled(w, Drop(fd))
    ensures var w' := Apply(maxPlayerCount, w, Drop(fd));
      && Stranded(w', id, name) && w'.sending == [] && w'.lobby.rooms == w.lobby.rooms
      && |w'.lobby.clients| == |w.lobby.clients| - 1
  {
    var w' := Apply(maxPlayerCount, w, Drop(fd));
    StepKeeps(maxPlayerCount, w, Drop(fd));
    assert w'.lobby.clients.Keys == w.lobby.clients.Keys - {fd};
    var f :| InQueue(w.lobby.rooms[id].input, f, name);
    assert InQueue(w'.lobby.rooms[id].input, f, name);
    assert forall i, n :: Registered(w', i, n) <==> Registered(w, i, n);
  }

  lemma SomeKey<K, V>(m: map<K, V>) returns (k: K)
    requires |m| != 0
    ensures k in m
  {
    k :| k in m;
  }

  lemma Above(s: set<int>) returns (m: int)
    ensures forall x :: x in s ==> x < m
  {
    if x :| x in s {
      var rest := Above(s - {x});
      m := if rest <= x then x + 1 else rest;
      forall y | y in s
        ensures y < m
      {
        assert y == x || y in s - {x};
      }
    } else {
      m := 0;
    }
  }

  lemma AcceptStranded(maxPlayerCount: nat, w: WorldState, id: int, name: string, fd: int)
    requires Stranded(w, id, name) && w.sending == [] && fd !in w.open
    ensures var w' := Apply(maxPlayerCount, w, Accept(fd));
      Stranded(w', id, name) && w'.sending == [] && w'.lobby == w.lobby && w'.newClients == w.newClients + [fd]
  {
    StepKeeps(maxPlayerCount, w, Accept(fd));
    var w' := Apply(maxPlayerCount, w, Accept(fd));
    assert forall i, n :: Registered(w', i, n) <==> Registered(w, i, n);
  }

  // An unnamed client alone in the lobby may take the name of a stranded one.
  lemma LoneClientMay(w: WorldState, id: int, name: string, fd: int)
    requires Inv(w) && LobbyFree(w) && w.lobby.clients == map[fd := Client(fd, "", 0)] && name != ""
    requires id in w.lobby.rooms && !NameInRooms(w.lobby, name) && exists f :: InQueue(w.lobby.rooms[id].input, f, name)
    ensures Enabled(w, Message(fd, NameMessage(name))) && TakesLiveName(w, Message(fd, NameMessage(name)))
  {
    var f :| InQueue(w.lobby.rooms[id].input, f, name);
    assert InRoom(w, id, f, name);
    QueuedElsewhere(w, id, f, name, fd);
    WaitingInMap(w);
  }

  // The next new connection takes the stranded client's name.
  lemma NewcomerClashes(maxPlayerCount: nat, w: WorldState, id: int, name: string)
    requires Stranded(w, id, name) && w.sending == [] && w.newClients != [] && w.lobby.clients == map[]
    requires w.lobby.rooms[id].state == IDLE && maxPlayerCount >= 1
    ensures exists w' :: Continues(maxPlayerCount, w, w') && !DistinctNames(w')
  {
    var fd := w.newClients[0];
    var w1, step := Apply(maxPlayerCount, w, TakeNew), Message(fd, NameMessage(name));
    NewcomerTaken(maxPlayerCount, w, fd);
    StepKeeps(maxPlayerCount, w, TakeNew);
    NowhereRegistered(w, id, name);
    LoneClientMay(w1, id, name, fd);
    ContinuesHere(maxPlayerCount, w1);
    ContinuesStep(maxPlayerCount, w, TakeNew, w1);
    if DistinctNames(w1) {
      DistinctExact(maxPlayerCount, w1, step);
      ContinuesHere(maxPlayerCount, Apply(maxPlayerCount, w1, step));
      ContinuesStep(maxPlayerCount, w1, step, Apply(maxPlayerCount, w1, step));
      ContinuesStep(maxPlayerCount, w, TakeNew, Apply(maxPlayerCount, w1, step));
    }
  }

  // An IDLE room has no users, so a name only it could have registered is registered nowhere.
  lemma NowhereRegistered(w: WorldState, id: int, name: string)
    requires Stranded(w, id, name) && w.lobby.rooms[id].state == IDLE
    ensures !NameInRooms(w.lobby, name)
  {
    assert RoomOk(w.lobby.rooms[id], false);
    if i :| i in w.lobby.rooms && w.lobby.rooms[i].HasUsername(name) { assert Registered(w, i, name); }
  }

  lemma NewcomerTaken(maxPlayerCount: nat, w: WorldState, fd: int)
    requires LobbyFree(w) && w.newClients != [] && w.newClients[0] == fd && w.lobby.clients == map[] && maxPlayerCount >= 1
    ensures var w' := Apply(maxPlayerCount, w, TakeNew);
      && w'.lobby.clients == map[fd := Client(fd, "", 0)] && w'.lobby.rooms == w.lobby.rooms
      && w'.threads == w.threads && LobbyFree(w')
  {
    var none: map<int, Client> := map[];
    assert none[fd := Client(fd, "", 0)] == map[fd := Client(fd, "", 0)];
    assert |map[fd := Client(fd, "", 0)]| == 1;
  }

  // A queued client is nobody in the lobby's map.
  lemma QueuedElsewhere(w: WorldState, id: int, f: int, name: string, fd: int)
    requires Conserved(w) && id in w.lobby.rooms && InQueue(w.lobby.rooms[id].input, f, name) && fd in w.lobby.clients
    ensures f != fd
  {
    var i :| 0 <= i < |w.lobby.rooms[id].input| && Has(Some(w.lobby.rooms[id].input[i]), f, name);
    assert FdAt(w, InInput(id, i)) == Some(f) && FdAt(w, InLobby(fd)) == Some(fd);
  }

  // From a stranded client on: finish the pushes, handle the room's reports, let everybody in the
  // lobby leave, accept one more connection, and let it take the name.
  lemma {:induction false} StrandedClashes(maxPlayerCount: nat, w: WorldState, id: int, name: string)
    requires Stranded(w, id, name) && maxPlayerCount >= 1
    ensures exists w' :: Continues(maxPlayerCount, w, w') && !DistinctNames(w')
    decreases |w.sending|, if w.sending == [] then |w.lobby.rooms[id].output| else 0,
              |w.lobby.clients|, if w.newClients == [] then 1 else 0
  {
    var step := Send;
    if w.sending != [] {
      SendStranded(maxPlayerCount, w, id, name);
    } else if w.lobby.rooms[id].state != IDLE {
      step := HandleChange(id);
      ReportStranded(maxPlayerCount, w, id, name);
    } else if |w.lobby.clients| != 0 {
      var fd := SomeKey(w.lobby.clients);
      step := Drop(fd);
      DropStranded(maxPlayerCount, w, id, name, fd);
    } else if w.newClients == [] {
      var fd := Above(w.open);
      step := Accept(fd);
      AcceptStranded(maxPlayerCount, w, id, name, fd);
    } else {
      NewcomerClashes(maxPlayerCount, w, id, name);
      return;
    }
    StrandedClashes(maxPlayerCount, Apply(maxPlayerCount, w, step), id, name);
    var w' :| Continues(maxPlayerCount, Apply(maxPlayerCount, w, step), w') && !DistinctNames(w');
    ContinuesStep(maxPlayerCount, w, step, w');
  }

  // The end of a game with somebody on the way to it strands that client.
  lemma UncleanStrands(maxPlayerCount: nat, w: WorldState, id: int) returns (name: string)
    requires Inv(w) && NamesOk(w) && Enabled(w, End(id)) && !Clean(w, End(id))
    ensures Stranded(Apply(maxPlayerCount, w, End(id)), id, name)
  {
    var w' := Apply(maxPlayerCount, w, End(id));
    StepKeeps(maxPlayerCount, w, End(id));
    if w.lobby.rooms[id].input != [] {
      var c := w.lobby.rooms[id].input[0];
      name := c.name;
      assert InQueue(w.lobby.rooms[id].input, c.fd, name);
      assert InRoom(w, id, c.fd, name) && Registered(w, id, name);
      assert InQueue(w'.lobby.rooms[id].input, c.fd, name);
    } else {
      var i :| 0 <= i < |w.sending| && w.sending[i].room == id;
      name := w.lobby.clients[w.sending[i].fd].name;
      assert Registered(w, id, name);
      assert InMap(w', w'.sending[i].fd, name) && w'.sending[i].room == id;
    }
    assert forall j :: Registered(w', j, name) <==> Registered(w, j, name);
  }

  lemma {:induction false} NoEndsClean(maxPlayerCount: nat, w: WorldState, steps: seq<Step>)
    requires IsRun(maxPlayerCount, w, steps) && NoEnds(steps)
    ensures CleanRun(maxPlayerCount, w, steps)
    decreases |steps|
  {
    if steps != [] { NoEndsClean(maxPlayerCount, Apply(maxPlayerCount, w, steps[0]), steps[1..]); }
  }

  // From an ordered state, on a server that admits a client: the end of a game is clean exactly
  // when no continuation without further ends makes two live clients share a name.
  lemma EndExact(maxPlayerCount: nat, w: WorldState, id: int)
    requires Inv(w) && NamesOk(w) && Enabled(w, End(id)) && maxPlayerCount >= 1
    ensures Clean(w, End(id)) <==>
            forall w' :: Continues(maxPlayerCount, Apply(maxPlayerCount, w, End(id)), w') ==> DistinctNames(w')
  {
    var w1 := Apply(maxPlayerCount, w, End(id));
    if Clean(w, End(id)) {
      StepNames(maxPlayerCount, w, End(id));
      StepKeeps(maxPlayerCount, w, End(id));
      forall w' | Continues(maxPlayerCount, w1, w')
        ensures DistinctNames(w')
      {
        var rest :| NoEnds(rest) && IsRun(maxPlayerCount, w1, rest) && Final(maxPlayerCount, w1, rest) == w';
        NoEndsClean(maxPlayerCount, w1, rest);
        RunNames(maxPlayerCount, w1, rest);
      }
    } else {
      var name := UncleanStrands(maxPlayerCount, w, id);
      StrandedClashes(maxPlayerCount, w1, id, name);
    }
  }

  // So the hypothesis of NameUniqueness cannot be weakened: after any clean run, the next end of a
  // game is clean exactly when the names stay distinct in whatever follows without further ends.
  lemma CleanEndsExact(maxPlayerCount: nat, roomCount: nat, steps: seq<Step>, id: int)
    requires IsRun(maxPlayerCount, Start(roomCount), steps) && CleanRun(maxPlayerCount, Start(roomCount), steps)
    requires Enabled(Final(maxPlayerCount, Start(roomCount), steps), End(id)) && maxPlayerCount >= 1
    ensures var w := Final(maxPlayerCount, Start(roomCount), steps);
      Clean(w, End(id)) <==>
      forall w' :: Continues(maxPlayerCount, Apply(maxPlayerCount, w, End(id)), w') ==> DistinctNames(w')
  {
    StartOk(roomCount);
    RunKeeps(maxPlayerCount, Start(roomCount), steps);
    NameUniqueness(maxPlayerCount, roomCount, steps);
    EndExact(maxPlayerCount, Final(maxPlayerCount, Start(roomCount), steps), id);
  }
}
