// What the lobby asks of its epoll (src/game_logic/game_server/IdleUsersRoom.cpp), step by step: the
// client descriptors it monitors are exactly the keys of its client map, so the handler of a
// monitored client finds it there.
module LobbyWatch {
  import opened Options
  import opened ProtocolMessages
  import opened Rooms
  import opened Lobby
  import opened World
  import opened WorldIndex
  import opened Places
  import E = Epolls

  const ON_CLIENT_WRITE: E.Handler := Some(0)
  const ON_CLIENT_DISCONNECT: E.Handler := Some(1)
  const ON_STATE_CHANGE: E.Handler := Some(2)

  // The end of _addClientBack, and of a round of _onNewClientConnect.
  function WatchClient(fd: int): seq<E.Operation> {
    [E.AddDescriptor(fd), E.AddEventHandler(fd, E.EPOLLIN, ON_CLIENT_WRITE),
     E.AddEventHandler(fd, E.EPOLLRDHUP | E.EPOLLHUP, ON_CLIENT_DISCONNECT)]
  }

  function WatchQueue(evfd: int): seq<E.Operation> {
    [E.AddDescriptor(evfd), E.AddEventHandler(evfd, E.EPOLLIN, ON_STATE_CHANGE)]
  }

  // _onClientDisconnect; destroying the client closes its descriptor.
  function DisconnectOps(fd: int): seq<E.Operation> {
    [E.RemoveDescriptor(fd), E.Closed(fd)]
  }

  function TakeNewOps(l: LobbyState, fd: int, maxPlayerCount: nat): seq<E.Operation> {
    if |l.clients[fd := Client(fd, "", 0)]| > maxPlayerCount then DisconnectOps(fd) else WatchClient(fd)
  }

  function AddBackOps(client: Option<Client>): seq<E.Operation> {
    if client.None? then [] else WatchClient(client.value.fd)
  }

  // A handler of one message: it may drop its sender, or register the report queue of a room that starts.
  ghost function MessageOps(l: LobbyState, fd: int, msg: ProtocolData, evfd: int -> int): seq<E.Operation>
    requires fd in l.clients && l.waiting.Keys <= l.clients.Keys
  {
    var o := Process(l, fd, msg);
    if o.start.Some? then WatchQueue(evfd(o.start.value.room))
    else if fd in o.closed then DisconnectOps(fd)
    else []
  }

  // What one step of the server does to the lobby's epoll. A game closes the descriptors of the
  // clients it loses; evfd is the eventfd of a room's report queue.
  ghost function OpsOf(maxPlayerCount: nat, w: WorldState, step: Step, evfd: int -> int): seq<E.Operation>
    requires Enabled(w, step)
  {
    match step
    case TakeNew => TakeNewOps(w.lobby, w.newClients[0], maxPlayerCount)
    case Message(fd, msg) => MessageOps(w.lobby, fd, msg, evfd)
    case Drop(fd) => DisconnectOps(fd)
    case Send => [E.RemoveDescriptor(w.sending[0].fd)]
    case HandleChange(id) =>
      var change := w.lobby.rooms[id].output[0];
      if change.newState == IDLE then AddBackOps(change.client1) + AddBackOps(change.client2) else []
    case Leave(id, fd) =>
      if SeatedAt(w.threads[id].seat1, fd) || SeatedAt(w.threads[id].seat2, fd) then [E.Closed(fd)] else []
    case _ => []
  }

  ghost predicate NoneThrows(e: E.EpollState, ops: seq<E.Operation>)
    decreases |ops|
  {
    ops == [] || (!E.Perform(e, ops[0]).threw && NoneThrows(E.Perform(e, ops[0]).state, ops[1..]))
  }

  // A client's descriptor once its handlers were added.
  const CLIENT_HANDLERS: E.MonitoredDescriptor :=
    E.MonitoredDescriptor(true, ON_CLIENT_WRITE, None, ON_CLIENT_DISCONNECT, None, None, ON_CLIENT_DISCONNECT)

  predicate IsClient(e: E.EpollState, fd: int) {
    fd in e.kernel && fd in e.monitored && e.monitored[fd] == CLIENT_HANDLERS
  }

  // Apart from the queues' eventfds, exactly the clients of the lobby are monitored, all with their
  // handlers and watched by the kernel.
  ghost predicate Watched(e: E.EpollState, clients: map<int, Client>, queues: set<int>) {
    && E.Coherent(e)
    && (forall fd :: fd !in queues ==> (fd in e.monitored <==> fd in clients))
    && (forall fd :: fd in clients ==> fd !in queues && IsClient(e, fd))
  }

  // The operations ops lead from e, none of them throwing, to a table that watches these clients.
  ghost predicate LeadsTo(e: E.EpollState, ops: seq<E.Operation>, clients: map<int, Client>, queues: set<int>) {
    NoneThrows(e, ops) && Watched(E.PerformAll(e, ops), clients, queues)
  }

  lemma Nothing(e: E.EpollState, clients: map<int, Client>, clients': map<int, Client>, queues: set<int>)
    requires Watched(e, clients, queues) && forall fd :: fd in clients' <==> fd in clients
    ensures LeadsTo(e, [], clients', queues)
  {
  }

  lemma OneMore(e: E.EpollState, op: E.Operation, ops: seq<E.Operation>, clients: map<int, Client>, queues: set<int>)
    requires !E.Perform(e, op).threw && LeadsTo(E.Perform(e, op).state, ops, clients, queues)
    ensures LeadsTo(e, [op] + ops, clients, queues)
  {
    assert ([op] + ops)[1..] == ops;
  }

  lemma {:induction false} Both(e: E.EpollState, a: seq<E.Operation>, clients: map<int, Client>,
        b: seq<E.Operation>, clients': map<int, Client>, queues: set<int>)
    requires LeadsTo(e, a, clients, queues) && LeadsTo(E.PerformAll(e, a), b, clients', queues)
    ensures LeadsTo(e, a + b, clients', queues)
    decreases |a|
  {
    if a == [] {
      assert a + b == b;
    } else {
      Both(E.Perform(e, a[0]).state, a[1..], clients, b, clients', queues);
      OneMore(e, a[0], a[1..] + b, clients', queues);
      assert [a[0]] + (a[1..] + b) == a + b;
    }
  }

  // Handlers of a monitored descriptor: the call goes through and the descriptor is watched.
  lemma HandlerAdded(e: E.EpollState, fd: int, eventType: bv32, handler: E.Handler)
    requires E.Coherent(e) && fd in e.monitored
    ensures var o := E.Perform(e, E.AddEventHandler(fd, eventType, handler));
      && !o.threw && E.Coherent(o.state) && fd in o.state.kernel
      && (forall f :: f in o.state.monitored <==> f in e.monitored)
      && o.state.monitored[fd] == E.SetHandlers(e.monitored[fd], eventType, handler).(isInitialized := true)
      && (forall f :: f in e.monitored && f != fd ==> o.state.monitored[f] == e.monitored[f])
      && (forall f :: f in e.kernel ==> f in o.state.kernel)
  {
    E.PerformKeeps(e, E.AddEventHandler(fd, eventType, handler));
  }

  lemma HandlersSet(md: E.MonitoredDescriptor)
    requires md == E.NEW_DESCRIPTOR || md == CLIENT_HANDLERS
    ensures var written := E.SetHandlers(md, E.EPOLLIN, ON_CLIENT_WRITE).(isInitialized := true);
      E.SetHandlers(written, E.EPOLLRDHUP | E.EPOLLHUP, ON_CLIENT_DISCONNECT).(isInitialized := true) == CLIENT_HANDLERS
  {
  }

  lemma NowWatched(e: E.EpollState, e': E.EpollState, fd: int, clients: map<int, Client>, clients': map<int, Client>, queues: set<int>)
    requires Watched(e, clients, queues) && fd !in queues && E.Coherent(e') && IsClient(e', fd)
    requires forall f :: f in clients' <==> f in clients || f == fd
    requires forall f :: f in e'.monitored <==> f in e.monitored || f == fd
    requires forall f :: f in e.monitored && f != fd ==> e'.monitored[f] == e.monitored[f]
    requires forall f :: f in e.kernel ==> f in e'.kernel
    ensures Watched(e', clients', queues)
  {
  }

  lemma ClientWatched(e: E.EpollState, fd: int, clients: map<int, Client>, clients': map<int, Client>, queues: set<int>)
    requires Watched(e, clients, queues) && fd !in queues
    requires forall f :: f in clients' <==> f in clients || f == fd
    ensures LeadsTo(e, WatchClient(fd), clients', queues)
  {
    var add, write, leave := E.AddDescriptor(fd), E.AddEventHandler(fd, E.EPOLLIN, ON_CLIENT_WRITE),
                             E.AddEventHandler(fd, E.EPOLLRDHUP | E.EPOLLHUP, ON_CLIENT_DISCONNECT);
    E.PerformKeeps(e, add);
    var e1 := E.Perform(e, add).state;
    HandlersSet(e1.monitored[fd]);
    HandlerAdded(e1, fd, E.EPOLLIN, ON_CLIENT_WRITE);
    var e2 := E.Perform(e1, write).state;
    HandlerAdded(e2, fd, E.EPOLLRDHUP | E.EPOLLHUP, ON_CLIENT_DISCONNECT);
    var e3 := E.Perform(e2, leave).state;
    NowWatched(e, e3, fd, clients, clients', queues);
    ThreeMore(e, add, write, leave, clients', queues);
  }

  lemma ThreeMore(e: E.EpollState, a: E.Operation, b: E.Operation, c: E.Operation, clients: map<int, Client>, queues: set<int>)
    requires !E.Perform(e, a).threw
    requires var e1 := E.Perform(e, a).state;
      !E.Perform(e1, b).threw && !E.Perform(E.Perform(e1, b).state, c).threw
      && Watched(E.Perform(E.Perform(e1, b).state, c).state, clients, queues)
    ensures LeadsTo(e, [a, b, c], clients, queues)
  {
    var e1 := E.Perform(e, a).state;
    var e2 := E.Perform(e1, b).state;
    Nothing(E.Perform(e2, c).state, clients, clients, queues);
    OneMore(e2, c, [], clients, queues);
    OneMore(e1, b, [c], clients, queues);
    OneMore(e, a, [b, c], clients, queues);
    assert [c] + [] == [c] && [b] + [c] == [b, c] && [a] + [b, c] == [a, b, c];
  }

  lemma ClientRemoved(e: E.EpollState, fd: int, clients: map<int, Client>, clients': map<int, Client>, queues: set<int>)
    requires Watched(e, clients, queues) && fd !in queues
    requires forall f :: f in clients' <==> f in clients && f != fd
    ensures !E.Perform(e, E.RemoveDescriptor(fd)).threw
    ensures Watched(E.Perform(e, E.RemoveDescriptor(fd)).state, clients', queues)
  {
    E.PerformKeeps(e, E.RemoveDescriptor(fd));
  }

  lemma UnwatchedClosed(e: E.EpollState, fd: int, clients: map<int, Client>, queues: set<int>)
    requires Watched(e, clients, queues) && fd !in queues && fd !in clients
    ensures LeadsTo(e, [E.Closed(fd)], clients, queues)
  {
    E.PerformKeeps(e, E.Closed(fd));
    Nothing(E.Perform(e, E.Closed(fd)).state, clients, clients, queues);
    OneMore(e, E.Closed(fd), [], clients, queues);
    assert [E.Closed(fd)] + [] == [E.Closed(fd)];
  }

  lemma ClientDropped(e: E.EpollState, fd: int, clients: map<int, Client>, clients': map<int, Client>, queues: set<int>)
    requires Watched(e, clients, queues) && fd !in queues
    requires forall f :: f in clients' <==> f in clients && f != fd
    ensures LeadsTo(e, DisconnectOps(fd), clients', queues)
  {
    ClientRemoved(e, fd, clients, clients', queues);
    UnwatchedClosed(E.Perform(e, E.RemoveDescriptor(fd)).state, fd, clients', queues);
    OneMore(e, E.RemoveDescriptor(fd), [E.Closed(fd)], clients', queues);
    assert [E.RemoveDescriptor(fd)] + [E.Closed(fd)] == DisconnectOps(fd);
  }

  lemma QueueWatched(e: E.EpollState, fd: int, clients: map<int, Client>, queues: set<int>)
    requires Watched(e, clients, queues) && fd in queues
    ensures LeadsTo(e, WatchQueue(fd), clients, queues)
  {
    var add, handle := E.AddDescriptor(fd), E.AddEventHandler(fd, E.EPOLLIN, ON_STATE_CHANGE);
    E.PerformKeeps(e, add);
    var e1 := E.Perform(e, add).state;
    HandlerAdded(e1, fd, E.EPOLLIN, ON_STATE_CHANGE);
    Nothing(E.Perform(e1, handle).state, clients, clients, queues);
    OneMore(e1, handle, [], clients, queues);
    OneMore(e, add, [handle], clients, queues);
    assert [handle] + [] == [handle] && [add] + [handle] == [add, handle];
  }

  // ---- Every step ----

  // The eventfds are open descriptors of their own, none of them a connection.
  ghost predicate Apart(w: WorldState, queues: set<int>, evfd: int -> int) {
    && (forall fd :: fd in w.open ==> fd !in queues)
    && (forall id :: id in w.lobby.rooms ==> evfd(id) in queues)
  }

  lemma ConnectionOf(w: WorldState, p: Place, queues: set<int>, evfd: int -> int)
    requires Conserved(w) && Apart(w, queues, evfd) && FdAt(w, p).Some?
    ensures FdAt(w, p).value !in queues
  {
    var fd := FdAt(w, p).value;
    assert fd in w.open;
    assert fd !in queues;
  }

  lemma TakeNewWatched(maxPlayerCount: nat, w: WorldState, e: E.EpollState, queues: set<int>, evfd: int -> int)
    requires Inv(w) && Enabled(w, TakeNew) && Watched(e, w.lobby.clients, queues) && Apart(w, queues, evfd)
    ensures LeadsTo(e, OpsOf(maxPlayerCount, w, TakeNew, evfd), Apply(maxPlayerCount, w, TakeNew).lobby.clients, queues)
  {
    var fd := w.newClients[0];
    NewIsNew(w);
    ConnectionOf(w, NewQueue(0), queues, evfd);
    var clients' := Apply(maxPlayerCount, w, TakeNew).lobby.clients;
    if |w.lobby.clients[fd := Client(fd, "", 0)]| > maxPlayerCount {
      ClientDropped(e, fd, w.lobby.clients, clients', queues);
    } else {
      ClientWatched(e, fd, w.lobby.clients, clients', queues);
    }
  }

  // What a message does to the keys of the map.
  lemma MessageKeys(w: WorldState, fd: int, msg: ProtocolData)
    requires Inv(w) && Enabled(w, Message(fd, msg))
    ensures var o := Process(w.lobby, fd, msg);
      && (o.start.Some? ==> fd !in o.closed && o.start.value.room in w.lobby.rooms)
      && forall f :: f in o.lobby.clients <==> f in w.lobby.clients && !(f == fd && fd in o.closed)
  {
    if msg.methodName == JOIN_GAME && msg.HasField("game_id") && w.lobby.clients[fd].HasName() {
      JoinKeeps(w, fd, Stoi(msg.GetField("game_id")));
    }
  }

  lemma MessageWatched(maxPlayerCount: nat, w: WorldState, fd: int, msg: ProtocolData,
        e: E.EpollState, queues: set<int>, evfd: int -> int)
    requires Inv(w) && Enabled(w, Message(fd, msg)) && Watched(e, w.lobby.clients, queues) && Apart(w, queues, evfd)
    ensures LeadsTo(e, MessageOps(w.lobby, fd, msg, evfd), Process(w.lobby, fd, msg).lobby.clients, queues)
  {
    MessageKeys(w, fd, msg);
    var o := Process(w.lobby, fd, msg);
    if o.start.Some? {
      QueueWatched(e, evfd(o.start.value.room), o.lobby.clients, queues);
    } else if fd in o.closed {
      ClientDropped(e, fd, w.lobby.clients, o.lobby.clients, queues);
    } else {
      Nothing(e, w.lobby.clients, o.lobby.clients, queues);
    }
  }

  lemma BackWatched(e: E.EpollState, client: Option<Client>, l: LobbyState, queues: set<int>)
    requires Watched(e, l.clients, queues) && (client.Some? ==> client.value.fd !in queues)
    ensures LeadsTo(e, AddBackOps(client), AddBack(l, client).clients, queues)
  {
    if client.Some? {
      ClientWatched(e, client.value.fd, l.clients, AddBack(l, client).clients, queues);
    } else {
      Nothing(e, l.clients, l.clients, queues);
    }
  }

  lemma ReportWatched(maxPlayerCount: nat, w: WorldState, id: int, e: E.EpollState, queues: set<int>, evfd: int -> int)
    requires Inv(w) && Enabled(w, HandleChange(id)) && Watched(e, w.lobby.clients, queues) && Apart(w, queues, evfd)
    ensures LeadsTo(e, OpsOf(maxPlayerCount, w, HandleChange(id), evfd), StateChange(w.lobby, id).clients, queues)
  {
    var change := w.lobby.rooms[id].output[0];
    if change.newState == IDLE {
      assert FdAt(w, InReport(id, 0, true)) == FdOf(change.client1) && FdAt(w, InReport(id, 0, false)) == FdOf(change.client2);
      if change.client1.Some? { ConnectionOf(w, InReport(id, 0, true), queues, evfd); }
      if change.client2.Some? { ConnectionOf(w, InReport(id, 0, false), queues, evfd); }
      var l1 := AddBack(w.lobby, change.client1);
      BackWatched(e, change.client1, w.lobby, queues);
      BackWatched(E.PerformAll(e, AddBackOps(change.client1)), change.client2, l1, queues);
      Both(e, AddBackOps(change.client1), l1.clients, AddBackOps(change.client2), AddBack(l1, change.client2).clients, queues);
    } else {
      Nothing(e, w.lobby.clients, StateChange(w.lobby, id).clients, queues);
    }
  }

  lemma LeaveWatched(maxPlayerCount: nat, w: WorldState, id: int, fd: int, e: E.EpollState, queues: set<int>, evfd: int -> int)
    requires Inv(w) && Enabled(w, Leave(id, fd)) && Watched(e, w.lobby.clients, queues) && Apart(w, queues, evfd)
    ensures LeadsTo(e, OpsOf(maxPlayerCount, w, Leave(id, fd), evfd), w.lobby.clients, queues)
  {
    var t := w.threads[id];
    if SeatedAt(t.seat1, fd) || SeatedAt(t.seat2, fd) {
      var seat := InSeat(id, SeatedAt(t.seat1, fd));
      assert FdAt(w, seat) == Some(fd);
      ConnectionOf(w, seat, queues, evfd);
      assert fd in w.lobby.clients ==> FdAt(w, InLobby(fd)) == Some(fd);
      UnwatchedClosed(e, fd, w.lobby.clients, queues);
    } else {
      Nothing(e, w.lobby.clients, w.lobby.clients, queues);
    }
  }

  // No step of the server makes the lobby's epoll throw, and after each the monitored client
  // descriptors are again exactly the keys of the client map, each watched by the kernel.
  lemma StepWatched(maxPlayerCount: nat, w: WorldState, step: Step, e: E.EpollState, queues: set<int>, evfd: int -> int)
    requires Inv(w) && Enabled(w, step) && Watched(e, w.lobby.clients, queues) && Apart(w, queues, evfd)
    requires step.Accept? ==> step.fd !in queues
    ensures var w' := Apply(maxPlayerCount, w, step);
      LeadsTo(e, OpsOf(maxPlayerCount, w, step, evfd), w'.lobby.clients, queues) && Apart(w', queues, evfd)
  {
    var w' := Apply(maxPlayerCount, w, step);
    StepRooms(maxPlayerCount, w, step);
    match step
    case TakeNew => TakeNewWatched(maxPlayerCount, w, e, queues, evfd);
    case Message(fd, msg) => MessageWatched(maxPlayerCount, w, fd, msg, e, queues, evfd);
    case Drop(fd) => ClientDropped(e, fd, w.lobby.clients, w'.lobby.clients, queues);
    case Send =>
      var fd := w.sending[0].fd;
      ClientRemoved(e, fd, w.lobby.clients, w'.lobby.clients, queues);
      Nothing(E.Perform(e, E.RemoveDescriptor(fd)).state, w'.lobby.clients, w'.lobby.clients, queues);
      OneMore(e, E.RemoveDescriptor(fd), [], w'.lobby.clients, queues);
      assert [E.RemoveDescriptor(fd)] + [] == [E.RemoveDescriptor(fd)];
    case HandleChange(id) => ReportWatched(maxPlayerCount, w, id, e, queues, evfd);
    case Leave(id, fd) => LeaveWatched(maxPlayerCount, w, id, fd, e, queues, evfd);
    case _ => Nothing(e, w.lobby.clients, w'.lobby.clients, queues);
  }

  // Steps create no rooms, and open no connection but the accepted one.
  lemma StepRooms(maxPlayerCount: nat, w: WorldState, step: Step)
    requires Inv(w) && Enabled(w, step)
    ensures var w' := Apply(maxPlayerCount, w, step);
      && (forall id :: id in w'.lobby.rooms ==> id in w.lobby.rooms)
      && (forall fd :: fd in w'.open ==> fd in w.open || step == Accept(fd))
  {
    if step.Message? { MessageRooms(w, step.fd, step.msg); }
  }

  lemma MessageRooms(w: WorldState, fd: int, msg: ProtocolData)
    requires Inv(w) && Enabled(w, Message(fd, msg))
    ensures var w' := Finish(w, Process(w.lobby, fd, msg));
      && (forall id :: id in w'.lobby.rooms ==> id in w.lobby.rooms)
      && (forall f :: f in w'.open ==> f in w.open)
  {
    if msg.methodName == JOIN_GAME && msg.HasField("game_id") && w.lobby.clients[fd].HasName() {
      JoinKeeps(w, fd, Stoi(msg.GetField("game_id")));
    }
  }

  // ---- Every run ----

  // The lobby's epoll after a run of the server.
  ghost function EpollAfter(maxPlayerCount: nat, w: WorldState, steps: seq<Step>, e: E.EpollState, evfd: int -> int): E.EpollState
    requires IsRun(maxPlayerCount, w, steps)
    decreases |steps|
  {
    if steps == [] then e
    else EpollAfter(maxPlayerCount, Apply(maxPlayerCount, w, steps[0]), steps[1..],
                    E.PerformAll(e, OpsOf(maxPlayerCount, w, steps[0], evfd)), evfd)
  }

  // accept never yields a descriptor that is open as an eventfd.
  ghost predicate NoQueueAccepted(steps: seq<Step>, queues: set<int>) {
    forall i :: 0 <= i < |steps| && steps[i].Accept? ==> steps[i].fd !in queues
  }

  lemma {:induction false} RunWatched(maxPlayerCount: nat, w: WorldState, steps: seq<Step>,
        e: E.EpollState, queues: set<int>, evfd: int -> int)
    requires Inv(w) && IsRun(maxPlayerCount, w, steps) && NoQueueAccepted(steps, queues)
    requires Watched(e, w.lobby.clients, queues) && Apart(w, queues, evfd)
    ensures var w' := Final(maxPlayerCount, w, steps);
      && Inv(w') && Apart(w', queues, evfd)
      && Watched(EpollAfter(maxPlayerCount, w, steps, e, evfd), w'.lobby.clients, queues)
    decreases |steps|
  {
    if steps != [] {
      StepWatched(maxPlayerCount, w, steps[0], e, queues, evfd);
      StepKeeps(maxPlayerCount, w, steps[0]);
      forall i | 0 <= i < |steps[1..]| && steps[1..][i].Accept?
        ensures steps[1..][i].fd !in queues
      {
        assert steps[1..][i] == steps[i + 1];
      }
      RunWatched(maxPlayerCount, Apply(maxPlayerCount, w, steps[0]), steps[1..],
                 E.PerformAll(e, OpsOf(maxPlayerCount, w, steps[0], evfd)), queues, evfd);
    }
  }

  // From the start of the server, with the new-client queue registered: whenever a handler of the
  // lobby may run, the client of every monitored descriptor that is no queue's is in the map, so
  // its handlers find it there and at() does not throw.
  lemma ClientsFound(maxPlayerCount: nat, roomCount: nat, steps: seq<Step>, newClients: int,
        queues: set<int>, evfd: int -> int, fd: int, msg: ProtocolData)
    requires IsRun(maxPlayerCount, Start(roomCount), steps) && NoQueueAccepted(steps, queues)
    requires newClients in queues && Apart(Start(roomCount), queues, evfd)
    ensures var e0 := E.PerformAll(E.NewEpoll(true), WatchQueue(newClients));
      var w, e := Final(maxPlayerCount, Start(roomCount), steps), EpollAfter(maxPlayerCount, Start(roomCount), steps, e0, evfd);
      LobbyFree(w) && fd in e.monitored && fd !in queues ==> Enabled(w, Message(fd, msg)) && Enabled(w, Drop(fd))
  {
    var none: map<int, Client> := map[];
    StartOk(roomCount);
    QueueWatched(E.NewEpoll(true), newClients, none, queues);
    var e0 := E.PerformAll(E.NewEpoll(true), WatchQueue(newClients));
    RunWatched(maxPlayerCount, Start(roomCount), steps, e0, queues, evfd);
    WaitingInMap(Final(maxPlayerCount, Start(roomCount), steps));
  }
}
