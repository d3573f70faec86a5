// Where every open connection is: conservation of clients in every interleaving.
module Places {
  import opened Options
  import opened ProtocolMessages
  import opened Rooms
  import opened Lobby
  import opened World
  import opened WorldIndex

  datatype Place =
    | NewQueue(index: int)
    | InLobby(key: int)
    | InInput(room: int, index: int)
    | InSeat(room: int, first: bool)
    | InReport(room: int, index: int, first: bool)

  function FdOf(c: Option<Client>): Option<int> {
    match c
    case None => None
    case Some(client) => Some(client.fd)
  }

  function FdAt(w: WorldState, p: Place): Option<int> {
    match p
    case NewQueue(i) => if 0 <= i < |w.newClients| then Some(w.newClients[i]) else None
    case InLobby(key) => if key in w.lobby.clients then Some(key) else None
    case InInput(id, i) =>
      if id in w.lobby.rooms && 0 <= i < |w.lobby.rooms[id].input| then Some(w.lobby.rooms[id].input[i].fd) else None
    case InSeat(id, first) =>
      if id !in w.threads then None else FdOf(if first then w.threads[id].seat1 else w.threads[id].seat2)
    case InReport(id, i, first) =>
      if id in w.lobby.rooms && 0 <= i < |w.lobby.rooms[id].output|
      then FdOf(if first then w.lobby.rooms[id].output[i].client1 else w.lobby.rooms[id].output[i].client2)
      else None
  }

  // Every open connection is in exactly one place, and nothing else is anywhere.
  ghost predicate Conserved(w: WorldState) {
    && (forall p :: FdAt(w, p).Some? ==> FdAt(w, p).value in w.open)
    && (forall fd :: fd in w.open ==> exists p :: FdAt(w, p) == Some(fd))
    && (forall p, q :: FdAt(w, p).Some? && FdAt(w, p) == FdAt(w, q) ==> p == q)
  }

  // A step that only moves clients (and destroys those that leave w'.open): before and after
  // are the two directions of the move.
  lemma Moved(w: WorldState, w': WorldState, before: Place -> Place, after: Place -> Place)
    requires Conserved(w) && w'.open <= w.open
    requires forall p :: FdAt(w', p).Some? ==> FdAt(w, before(p)) == FdAt(w', p) && FdAt(w', p).value in w'.open
    requires forall p :: FdAt(w, p).Some? && FdAt(w, p).value in w'.open ==> FdAt(w', after(p)) == FdAt(w, p)
    requires forall p, q :: FdAt(w', p).Some? && FdAt(w', q).Some? && before(p) == before(q) ==> p == q
    ensures Conserved(w')
  {
    forall fd | fd in w'.open
      ensures exists p :: FdAt(w', p) == Some(fd)
    {
      var p :| FdAt(w, p) == Some(fd);
      assert FdAt(w', after(p)) == Some(fd);
    }
    forall p, q | FdAt(w', p).Some? && FdAt(w', p) == FdAt(w', q)
      ensures p == q
    {
      assert before(p) == before(q);
    }
  }

  // The step moved nobody.
  lemma Stayed(w: WorldState, w': WorldState)
    requires Conserved(w) && w'.open == w.open
    requires forall p :: FdAt(w', p) == FdAt(w, p)
    ensures Conserved(w')
  {
    Moved(w, w', p => p, p => p);
  }

  // The step destroyed the client at one place and moved nobody else.
  lemma Destroyed(w: WorldState, w': WorldState, gone: Place)
    requires Conserved(w) && FdAt(w, gone).Some? && w'.open == w.open - {FdAt(w, gone).value}
    requires forall p :: FdAt(w', p) == if p == gone then None else FdAt(w, p)
    ensures Conserved(w')
  {
    Moved(w, w', p => p, p => p);
  }

  lemma AcceptConserves(w: WorldState, fd: int)
    requires Conserved(w) && fd !in w.open
    ensures Conserved(w.(open := w.open + {fd}, newClients := w.newClients + [fd]))
  {
    var w' := w.(open := w.open + {fd}, newClients := w.newClients + [fd]);
    var last := NewQueue(|w.newClients|);
    assert forall p :: FdAt(w', p) == if p == last then Some(fd) else FdAt(w, p);
    forall f | f in w'.open
      ensures exists p :: FdAt(w', p) == Some(f)
    {
      if f in w.open {
        var p :| FdAt(w, p) == Some(f);
        assert p != last;
        assert FdAt(w', p) == Some(f);
      } else {
        assert FdAt(w', last) == Some(f);
      }
    }
  }

  // A connection in the new-client queue is not in the lobby's map yet: the map write overwrites nobody.
  lemma NewIsNew(w: WorldState)
    requires Conserved(w) && w.newClients != []
    ensures w.newClients[0] !in w.lobby.clients
  {
    var fd := w.newClients[0];
    assert FdAt(w, NewQueue(0)) == Some(fd);
    assert fd in w.lobby.clients ==> FdAt(w, InLobby(fd)) == Some(fd);
  }

  // Where everybody is after the lobby took one connection, and kept it or not.
  lemma TakeNewAt(w: WorldState, maxPlayerCount: nat, p: Place)
    requires w.newClients != [] && w.newClients[0] !in w.lobby.clients
    ensures var fd := w.newClients[0];
      var o := TakeNewClient(w.lobby, fd, maxPlayerCount);
      FdAt(Finish(w.(newClients := w.newClients[1..]), o), p) ==
      if p.NewQueue? then (if p.index < 0 then None else FdAt(w, NewQueue(p.index + 1)))
      else if p == InLobby(fd) then (if o.closed == {} then Some(fd) else None)
      else FdAt(w, p)
  {
  }

  lemma TakeNewConserves(w: WorldState, maxPlayerCount: nat)
    requires Conserved(w) && w.newClients != []
    ensures Conserved(Finish(w.(newClients := w.newClients[1..]), TakeNewClient(w.lobby, w.newClients[0], maxPlayerCount)))
  {
    var fd := w.newClients[0];
    NewIsNew(w);
    var o := TakeNewClient(w.lobby, fd, maxPlayerCount);
    var w' := Finish(w.(newClients := w.newClients[1..]), o);
    assert FdAt(w, NewQueue(0)) == Some(fd);
    forall p
      ensures FdAt(w', p) == AtAfterTake(w, fd, o.closed == {}, p)
    {
      TakeNewAt(w, maxPlayerCount, p);
    }
    Taken(w, w', fd, o.closed == {});
  }

  function AtAfterTake(w: WorldState, fd: int, kept: bool, p: Place): Option<int> {
    if p.NewQueue? then (if p.index < 0 then None else FdAt(w, NewQueue(p.index + 1)))
    else if p == InLobby(fd) then (if kept then Some(fd) else None)
    else FdAt(w, p)
  }

  lemma Taken(w: WorldState, w': WorldState, fd: int, kept: bool)
    requires Conserved(w) && FdAt(w, NewQueue(0)) == Some(fd)
    requires w'.open == if kept then w.open else w.open - {fd}
    requires forall p :: FdAt(w', p) == AtAfterTake(w, fd, kept, p)
    ensures Conserved(w')
  {
    var before := (p: Place) =>
      if p.NewQueue? then NewQueue(p.index + 1) else if p == InLobby(fd) then NewQueue(0) else p;
    var after := (p: Place) =>
      if p == NewQueue(0) then InLobby(fd) else if p.NewQueue? then NewQueue(p.index - 1) else p;
    Moved(w, w', before, after);
  }

  lemma DisconnectConserves(w: WorldState, fd: int)
    requires Conserved(w)
    ensures Conserved(Finish(w, Disconnect(w.lobby, fd)))
  {
    var w' := Finish(w, Disconnect(w.lobby, fd));
    if fd in w.lobby.clients {
      assert FdAt(w, InLobby(fd)) == Some(fd);
      Destroyed(w, w', InLobby(fd));
    } else {
      Stayed(w, w');
    }
  }

  lemma DenyConserves(w: WorldState, fd: int)
    requires Conserved(w) && fd in w.lobby.clients
    ensures Conserved(Finish(w, Deny(w.lobby, fd)))
  {
    if w.lobby.clients[fd].denied >= MAX_REQ_DENIED_CNT {
      DisconnectConserves(w, fd);
    } else {
      Stayed(w, Finish(w, Deny(w.lobby, fd)));
    }
  }

  // Renaming a client, or registering a wait or a game, moves nobody.
  lemma JoinConserves(w: WorldState, fd: int, gameId: Option<int>)
    requires Conserved(w) && LobbyOk(w) && LobbyFree(w) && fd in w.lobby.clients && w.lobby.clients[fd].HasName()
    requires w.lobby.waiting.Keys <= w.lobby.clients.Keys
    ensures Conserved(Finish(w, Join(w.lobby, fd, gameId)))
  {
    var l := w.lobby;
    if gameId.None? || gameId.value !in l.rooms || l.rooms[gameId.value].state != IDLE {
      DenyConserves(w, fd);
    } else if !SomeoneWaits(l, gameId.value) {
      Stayed(w, Finish(w, Join(l, fd, gameId)));
    } else if Waiter(l, gameId.value) == fd {
      DenyConserves(w, fd);
    } else {
      StartConserves(w, gameId.value, fd, Waiter(l, gameId.value));
    }
  }

  lemma StartConserves(w: WorldState, id: int, fd: int, other: int)
    requires Conserved(w) && LobbyOk(w) && LobbyFree(w) && fd in w.lobby.clients && w.lobby.clients[fd].HasName()
    requires id in w.lobby.rooms && w.lobby.rooms[id].state == IDLE
    requires other in w.lobby.waiting && w.lobby.waiting[other] == id && other != fd && other in w.lobby.clients
    ensures var o := StartRoom(w.lobby, id, w.lobby.clients[fd].name, w.lobby.clients[other].name);
      Conserved(Finish(w, o.(start := Some(GameStart(id, fd, other)))))
  {
    assert RoomOk(w.lobby.rooms[id], id in w.threads);
    StartShape(w.lobby, id, w.lobby.clients[fd].name, w.lobby.clients[other].name);
    var o := StartRoom(w.lobby, id, w.lobby.clients[fd].name, w.lobby.clients[other].name);
    var w' := Finish(w, o.(start := Some(GameStart(id, fd, other))));
    assert id !in w.threads && w'.threads[id] == NEW_THREAD;
    forall p
      ensures FdAt(w', p) == FdAt(w, p)
    {
    }
    Stayed(w, w');
  }

  lemma MessageConserves(w: WorldState, fd: int, msg: ProtocolData)
    requires Conserved(w) && LobbyOk(w) && LobbyFree(w) && fd in w.lobby.clients
    requires w.lobby.waiting.Keys <= w.lobby.clients.Keys
    ensures Conserved(Finish(w, Process(w.lobby, fd, msg)))
  {
    DisconnectConserves(w, fd);
    DenyConserves(w, fd);
    if msg.methodName == JOIN_GAME && msg.HasField("game_id") && w.lobby.clients[fd].HasName() {
      JoinConserves(w, fd, Stoi(msg.GetField("game_id")));
    } else if msg.methodName == ENTER_USERNAME && msg.HasField("username") && !w.lobby.clients[fd].HasName() {
      if !NameInLobby(w.lobby, fd, msg.GetField("username")) && !NameInRooms(w.lobby, msg.GetField("username")) {
        Stayed(w, Finish(w, Process(w.lobby, fd, msg)));
      }
    } else if msg.methodName == GET_ROOM_LIST {
      if w.lobby.clients[fd].HasName() { Stayed(w, Finish(w, Process(w.lobby, fd, msg))); }
    }
  }

  lemma SendConserves(w: WorldState, id: int, fd: int, rest: seq<GameSend>)
    requires Conserved(w) && id in w.lobby.rooms && fd in w.lobby.clients && w.lobby.clients[fd].fd == fd
    ensures Conserved(w.(lobby := SendClient(w.lobby, id, fd), sending := rest))
  {
    var w' := w.(lobby := SendClient(w.lobby, id, fd), sending := rest);
    var end := InInput(id, |w.lobby.rooms[id].input|);
    assert FdAt(w, InLobby(fd)) == Some(fd);
    Moved(w, w', p => if p == end then InLobby(fd) else p, p => if p == InLobby(fd) then end else p);
  }

  // The clients of a report are not in the lobby's map: bringing them back overwrites nobody.
  lemma ReturnsAreNew(w: WorldState, id: int)
    requires Conserved(w)
    ensures ReturnsNew(w, id)
    ensures id in w.lobby.rooms && w.lobby.rooms[id].output != [] ==>
              var c := w.lobby.rooms[id].output[0];
              c.client1.Some? && c.client2.Some? ==> c.client1.value.fd != c.client2.value.fd
  {
    if id in w.lobby.rooms && w.lobby.rooms[id].output != [] {
      var c := w.lobby.rooms[id].output[0];
      var p1, p2 := InReport(id, 0, true), InReport(id, 0, false);
      assert FdAt(w, p1) == FdOf(c.client1) && FdAt(w, p2) == FdOf(c.client2);
      assert forall fd :: fd in w.lobby.clients ==> FdAt(w, InLobby(fd)) == Some(fd);
    }
  }

  // Where everybody is after the head report of a room, with clients f1 and f2, was handled.
  function AtAfterReport(w: WorldState, id: int, f1: Option<int>, f2: Option<int>, p: Place): Option<int> {
    if p.InReport? && p.room == id then (if p.index < 0 then None else FdAt(w, InReport(id, p.index + 1, p.first)))
    else if p.InLobby? && (Some(p.key) == f1 || Some(p.key) == f2) then Some(p.key)
    else FdAt(w, p)
  }

  lemma HandleChangeAt(w: WorldState, id: int, p: Place)
    requires LobbyOk(w) && id in w.lobby.rooms && w.lobby.rooms[id].output != []
    ensures var change := w.lobby.rooms[id].output[0];
      FdAt(w.(lobby := StateChange(w.lobby, id)), p) == AtAfterReport(w, id, FdOf(change.client1), FdOf(change.client2), p)
  {
    HeadReport(w.lobby.rooms[id], id in w.threads);
  }

  function ReportBefore(id: int, f1: Option<int>, f2: Option<int>, p: Place): Place {
    if p.InReport? && p.room == id then InReport(id, p.index + 1, p.first)
    else if p.InLobby? && Some(p.key) == f1 then InReport(id, 0, true)
    else if p.InLobby? && Some(p.key) == f2 then InReport(id, 0, false)
    else p
  }

  function ReportAfter(id: int, f1: Option<int>, f2: Option<int>, p: Place): Place {
    if p == InReport(id, 0, true) && f1.Some? then InLobby(f1.value)
    else if p == InReport(id, 0, false) && f2.Some? then InLobby(f2.value)
    else if p.InReport? && p.room == id then InReport(id, p.index - 1, p.first)
    else p
  }

  lemma ReportMoved(w: WorldState, w': WorldState, id: int, f1: Option<int>, f2: Option<int>)
    requires Conserved(w) && w'.open == w.open
    requires FdAt(w, InReport(id, 0, true)) == f1 && FdAt(w, InReport(id, 0, false)) == f2
    requires forall p :: FdAt(w', p) == AtAfterReport(w, id, f1, f2, p)
    ensures Conserved(w')
  {
    forall p | FdAt(w', p).Some?
      ensures FdAt(w, ReportBefore(id, f1, f2, p)) == FdAt(w', p)
    {
      assert FdAt(w', p) == AtAfterReport(w, id, f1, f2, p);
    }
    forall p | FdAt(w, p).Some?
      ensures FdAt(w', ReportAfter(id, f1, f2, p)) == FdAt(w, p)
    {
      assert FdAt(w', ReportAfter(id, f1, f2, p)) == AtAfterReport(w, id, f1, f2, ReportAfter(id, f1, f2, p));
    }
    forall p, q | FdAt(w', p).Some? && FdAt(w', q).Some? && ReportBefore(id, f1, f2, p) == ReportBefore(id, f1, f2, q)
      ensures p == q
    {
      ReportFrom(w, w', id, f1, f2, p, q);
    }
    Moved(w, w', p => ReportBefore(id, f1, f2, p), p => ReportAfter(id, f1, f2, p));
  }

  // Two occupied places never have the same origin.
  lemma ReportFrom(w: WorldState, w': WorldState, id: int, f1: Option<int>, f2: Option<int>, p: Place, q: Place)
    requires FdAt(w', p) == AtAfterReport(w, id, f1, f2, p) && FdAt(w', q) == AtAfterReport(w, id, f1, f2, q)
    requires FdAt(w', p).Some? && FdAt(w', q).Some?
    requires ReportBefore(id, f1, f2, p) == ReportBefore(id, f1, f2, q)
    ensures p == q
  {
  }

  lemma HandleChangeConserves(w: WorldState, id: int)
    requires Conserved(w) && LobbyOk(w) && id in w.lobby.rooms && w.lobby.rooms[id].output != []
    ensures Conserved(w.(lobby := StateChange(w.lobby, id)))
  {
    var change := w.lobby.rooms[id].output[0];
    var f1, f2 := FdOf(change.client1), FdOf(change.client2);
    forall p
      ensures FdAt(w.(lobby := StateChange(w.lobby, id)), p) == AtAfterReport(w, id, f1, f2, p)
    {
      HandleChangeAt(w, id, p);
    }
    ReportMoved(w, w.(lobby := StateChange(w.lobby, id)), id, f1, f2);
  }

  // Where everybody is after the game thread took one client from its queue.
  lemma SitAt(w: WorldState, id: int, p: Place)
    requires id in w.threads && id in w.lobby.rooms && w.lobby.rooms[id].input != []
    requires w.threads[id].seat1.None? || w.threads[id].seat2.None?
    ensures var w' := WithIO(w, id, TakeSeat(IO(w, id)));
      FdAt(w', p) ==
      if p == InSeat(id, w.threads[id].seat1.None?) then FdAt(w, InInput(id, 0))
      else if p.InInput? && p.room == id then (if p.index < 0 then None else FdAt(w, InInput(id, p.index + 1)))
      else FdAt(w, p)
  {
  }

  lemma SitConserves(w: WorldState, id: int)
    requires Conserved(w) && id in w.threads && id in w.lobby.rooms && w.lobby.rooms[id].input != []
    ensures Conserved(WithIO(w, id, TakeSeat(IO(w, id))))
  {
    var w' := WithIO(w, id, TakeSeat(IO(w, id)));
    var t := w.threads[id];
    if t.seat1.Some? && t.seat2.Some? {
      Stayed(w, w');
    } else {
      forall p
        ensures FdAt(w', p) == AtAfterSit(w, id, t.seat1.None?, p)
      {
        SitAt(w, id, p);
      }
      Sat(w, w', id, t.seat1.None?);
    }
  }

  function AtAfterSit(w: WorldState, id: int, first: bool, p: Place): Option<int> {
    if p == InSeat(id, first) then FdAt(w, InInput(id, 0))
    else if p.InInput? && p.room == id then (if p.index < 0 then None else FdAt(w, InInput(id, p.index + 1)))
    else FdAt(w, p)
  }

  function SitBefore(id: int, first: bool, p: Place): Place {
    if p == InSeat(id, first) then InInput(id, 0)
    else if p.InInput? && p.room == id then InInput(id, p.index + 1)
    else p
  }

  function SitAfter(id: int, first: bool, p: Place): Place {
    if p == InInput(id, 0) then InSeat(id, first)
    else if p.InInput? && p.room == id then InInput(id, p.index - 1)
    else p
  }

  lemma Sat(w: WorldState, w': WorldState, id: int, first: bool)
    requires Conserved(w) && w'.open == w.open && FdAt(w, InSeat(id, first)) == None
    requires forall p :: FdAt(w', p) == AtAfterSit(w, id, first, p)
    ensures Conserved(w')
  {
    forall p | FdAt(w', p).Some?
      ensures FdAt(w, SitBefore(id, first, p)) == FdAt(w', p)
    {
      assert FdAt(w', p) == AtAfterSit(w, id, first, p);
    }
    forall p | FdAt(w, p).Some?
      ensures FdAt(w', SitAfter(id, first, p)) == FdAt(w, p)
    {
      assert FdAt(w', SitAfter(id, first, p)) == AtAfterSit(w, id, first, SitAfter(id, first, p));
    }
    forall p, q | FdAt(w', p).Some? && FdAt(w', q).Some? && SitBefore(id, first, p) == SitBefore(id, first, q)
      ensures p == q
    {
      assert FdAt(w', p) == AtAfterSit(w, id, first, p);
      assert FdAt(w', q) == AtAfterSit(w, id, first, q);
    }
    Moved(w, w', p => SitBefore(id, first, p), p => SitAfter(id, first, p));
  }

  // A game seats two different connections, so one disconnect empties at most one seat.
  lemma LeaveAt(maxPlayerCount: nat, w: WorldState, id: int, fd: int, p: Place)
    requires Conserved(w) && Enabled(w, Leave(id, fd))
    ensures var w' := Apply(maxPlayerCount, w, Leave(id, fd));
      FdAt(w', p) == if p.InSeat? && p.room == id && FdAt(w, p) == Some(fd) then None else FdAt(w, p)
  {
    var room := w.lobby.rooms[id];
    var output := LeaveSeat(IO(w, id), fd).output;
    assert forall i :: 0 <= i < |room.output| ==> output[i] == room.output[i];
    assert forall i :: |room.output| <= i < |output| ==> output[i] == GameStateChange(PAUSED, None, None);
  }

  lemma LeaveConserves(maxPlayerCount: nat, w: WorldState, id: int, fd: int)
    requires Conserved(w) && Enabled(w, Leave(id, fd))
    ensures Conserved(Apply(maxPlayerCount, w, Leave(id, fd)))
  {
    var w' := Apply(maxPlayerCount, w, Leave(id, fd));
    var t := w.threads[id];
    var p1, p2 := InSeat(id, true), InSeat(id, false);
    assert FdAt(w, p1) == FdOf(t.seat1) && FdAt(w, p2) == FdOf(t.seat2);
    forall p
      ensures FdAt(w', p) == if p.InSeat? && p.room == id && FdAt(w, p) == Some(fd) then None else FdAt(w, p)
    {
      LeaveAt(maxPlayerCount, w, id, fd, p);
    }
    if SeatedAt(t.seat1, fd) {
      assert FdAt(w, p2) != Some(fd);
      Destroyed(w, w', p1);
    } else if SeatedAt(t.seat2, fd) {
      Destroyed(w, w', p2);
    } else {
      Stayed(w, w');
    }
  }

  // Where everybody is after an ended game pushed its last report, the k-th of its room.
  function AtAfterEnd(w: WorldState, id: int, k: nat, p: Place): Option<int> {
    if p.InSeat? && p.room == id then None
    else if p.InReport? && p.room == id && p.index == k then FdAt(w, InSeat(id, p.first))
    else FdAt(w, p)
  }

  lemma EndAt(maxPlayerCount: nat, w: WorldState, id: int, p: Place)
    requires Enabled(w, End(id))
    ensures FdAt(Apply(maxPlayerCount, w, End(id)), p) == AtAfterEnd(w, id, |w.lobby.rooms[id].output|, p)
  {
  }

  lemma Ended(w: WorldState, w': WorldState, id: int, k: nat)
    requires Conserved(w) && w'.open == w.open
    requires FdAt(w, InReport(id, k, true)) == None && FdAt(w, InReport(id, k, false)) == None
    requires forall p :: FdAt(w', p) == AtAfterEnd(w, id, k, p)
    ensures Conserved(w')
  {
    var before := (p: Place) =>
      if p.InReport? && p.room == id && p.index == k then InSeat(id, p.first) else p;
    var after := (p: Place) => if p.InSeat? && p.room == id then InReport(id, k, p.first) else p;
    Moved(w, w', before, after);
  }

  lemma EndConserves(maxPlayerCount: nat, w: WorldState, id: int)
    requires Conserved(w) && Enabled(w, End(id))
    ensures Conserved(Apply(maxPlayerCount, w, End(id)))
  {
    var w' := Apply(maxPlayerCount, w, End(id));
    var k := |w.lobby.rooms[id].output|;
    forall p
      ensures FdAt(w', p) == AtAfterEnd(w, id, k, p)
    {
      EndAt(maxPlayerCount, w, id, p);
    }
    Ended(w, w', id, k);
  }

  // ---- Every run ----

  ghost predicate Inv(w: WorldState) {
    LobbyOk(w) && Conserved(w)
  }

  lemma LobbyStepKeeps(maxPlayerCount: nat, w: WorldState, step: Step)
    requires Inv(w) && Enabled(w, step) && (step.Accept? || step.TakeNew? || step.Message? || step.Drop?)
    ensures Inv(Apply(maxPlayerCount, w, step))
  {
    match step
    case Accept(fd) => AcceptConserves(w, fd);
    case TakeNew =>
      NewIsNew(w);
      TakeNewKeeps(w, maxPlayerCount);
      TakeNewConserves(w, maxPlayerCount);
    case Message(fd, msg) =>
      MessageKeeps(w, fd, msg);
      MessageConserves(w, fd, msg);
    case Drop(fd) =>
      DisconnectKeeps(w, fd);
      DisconnectConserves(w, fd);
  }

  lemma SendStepKeeps(maxPlayerCount: nat, w: WorldState)
    requires Inv(w) && Enabled(w, Send)
    ensures Inv(Apply(maxPlayerCount, w, Send))
  {
    SendKeeps(w);
    SendConserves(w, w.sending[0].room, w.sending[0].fd, w.sending[1..]);
  }

  lemma ReportStepKeeps(maxPlayerCount: nat, w: WorldState, id: int)
    requires Inv(w) && Enabled(w, HandleChange(id))
    ensures Inv(Apply(maxPlayerCount, w, HandleChange(id)))
  {
    ReturnsAreNew(w, id);
    HandleChangeKeeps(w, id);
    HandleChangeConserves(w, id);
  }

  lemma SitStepKeeps(maxPlayerCount: nat, w: WorldState, id: int)
    requires Inv(w) && Enabled(w, Sit(id))
    ensures Inv(Apply(maxPlayerCount, w, Sit(id)))
  {
    GameKeeps(w, id, TakeSeat(IO(w, id)));
    SitConserves(w, id);
  }

  lemma LeaveStepKeeps(maxPlayerCount: nat, w: WorldState, id: int, fd: int)
    requires Inv(w) && Enabled(w, Leave(id, fd))
    ensures Inv(Apply(maxPlayerCount, w, Leave(id, fd)))
  {
    GameKeeps(w, id, LeaveSeat(IO(w, id), fd));
    LeaveConserves(maxPlayerCount, w, id, fd);
  }

  lemma StopStepKeeps(maxPlayerCount: nat, w: WorldState, id: int)
    requires Inv(w) && Enabled(w, Stop(id))
    ensures Inv(Apply(maxPlayerCount, w, Stop(id)))
  {
    GameKeeps(w, id, StopGame(IO(w, id)));
    Stayed(w, Apply(maxPlayerCount, w, Stop(id)));
  }

  lemma RefuseStepKeeps(maxPlayerCount: nat, w: WorldState, id: int, fd: int)
    requires Inv(w) && Enabled(w, Refuse(id, fd))
    ensures Inv(Apply(maxPlayerCount, w, Refuse(id, fd)))
  {
    GameKeeps(w, id, RefuseSeat(IO(w, id), fd));
    Stayed(w, Apply(maxPlayerCount, w, Refuse(id, fd)));
  }

  lemma EndStepKeeps(maxPlayerCount: nat, w: WorldState, id: int)
    requires Inv(w) && Enabled(w, End(id))
    ensures Inv(Apply(maxPlayerCount, w, End(id)))
  {
    EndKeeps(maxPlayerCount, w, id);
    EndConserves(maxPlayerCount, w, id);
  }

  lemma StepKeeps(maxPlayerCount: nat, w: WorldState, step: Step)
    requires Inv(w) && Enabled(w, step)
    ensures Inv(Apply(maxPlayerCount, w, step))
  {
    match step
    case Send => SendStepKeeps(maxPlayerCount, w);
    case HandleChange(id) => ReportStepKeeps(maxPlayerCount, w, id);
    case Sit(id) => SitStepKeeps(maxPlayerCount, w, id);
    case Leave(id, fd) => LeaveStepKeeps(maxPlayerCount, w, id, fd);
    case Refuse(id, fd) => RefuseStepKeeps(maxPlayerCount, w, id, fd);
    case Stop(id) => StopStepKeeps(maxPlayerCount, w, id);
    case End(id) => EndStepKeeps(maxPlayerCount, w, id);
    case _ => LobbyStepKeeps(maxPlayerCount, w, step);
  }

  lemma StartOk(roomCount: nat)
    ensures Inv(Start(roomCount))
  {
  }

  lemma {:induction false} RunKeeps(maxPlayerCount: nat, w: WorldState, steps: seq<Step>)
    requires Inv(w) && IsRun(maxPlayerCount, w, steps)
    ensures Inv(Final(maxPlayerCount, w, steps))
    decreases |steps|
  {
    if steps != [] {
      StepKeeps(maxPlayerCount, w, steps[0]);
      RunKeeps(maxPlayerCount, Apply(maxPlayerCount, w, steps[0]), steps[1..]);
    }
  }
}
