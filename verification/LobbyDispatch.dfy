// The lobby's handlers (src/game_logic/game_server/IdleUsersRoom.cpp) within the dispatch loop of
// its epoll (Epoll.cpp:45-72), which also removes descriptors that hung up.
module LobbyDispatch {
  import opened ProtocolMessages
  import opened Rooms
  import opened World
  import opened WorldIndex
  import opened Places
  import opened LobbyWatch
  import D = Dispatch
  import E = Epolls
  import Q = EventfdQueues

  // ---- The queues stay registered ----

  lemma ReportKeepsQueue(maxPlayerCount: nat, w: WorldState, id: int, queues: set<int>, evfd: int -> int, q: int)
    requires Inv(w) && Enabled(w, HandleChange(id)) && Apart(w, queues, evfd) && q in queues
    ensures D.KeepsQueue(OpsOf(maxPlayerCount, w, HandleChange(id), evfd), q)
  {
    var change := w.lobby.rooms[id].output[0];
    if change.client1.Some? { ConnectionOf(w, InReport(id, 0, true), queues, evfd); }
    if change.client2.Some? { ConnectionOf(w, InReport(id, 0, false), queues, evfd); }
  }

  // No step of the server unregisters a queue, though the start of a room may register it again.
  lemma OpsKeepQueue(maxPlayerCount: nat, w: WorldState, step: Step, queues: set<int>, evfd: int -> int, q: int)
    requires Inv(w) && Enabled(w, step) && Apart(w, queues, evfd) && q in queues
    ensures D.KeepsQueue(OpsOf(maxPlayerCount, w, step, evfd), q)
  {
    match step
    case TakeNew => ConnectionOf(w, NewQueue(0), queues, evfd);
    case Message(fd, msg) => ConnectionOf(w, InLobby(fd), queues, evfd);
    case Drop(fd) => ConnectionOf(w, InLobby(fd), queues, evfd);
    case Send => ConnectionOf(w, InLobby(w.sending[0].fd), queues, evfd);
    case HandleChange(id) => ReportKeepsQueue(maxPlayerCount, w, id, queues, evfd, q);
    case Leave(id, fd) =>
      var t := w.threads[id];
      if SeatedAt(t.seat1, fd) || SeatedAt(t.seat2, fd) {
        ConnectionOf(w, InSeat(id, SeatedAt(t.seat1, fd)), queues, evfd);
      }
    case _ =>
  }

  lemma LaterSteps(steps: seq<Step>, queues: set<int>)
    requires NoQueueAccepted(steps, queues) && steps != []
    ensures NoQueueAccepted(steps[1..], queues)
  {
    forall i | 0 <= i < |steps[1..]| && steps[1..][i].Accept?
      ensures steps[1..][i].fd !in queues
    {
      assert steps[1..][i] == steps[i + 1];
    }
  }

  lemma {:induction false} RunKeepsQueue(maxPlayerCount: nat, w: WorldState, steps: seq<Step>,
        e: E.EpollState, queues: set<int>, evfd: int -> int, q: int)
    requires Inv(w) && IsRun(maxPlayerCount, w, steps) && NoQueueAccepted(steps, queues)
    requires Watched(e, w.lobby.clients, queues) && Apart(w, queues, evfd) && q in queues && D.IsQueue(e, q)
    ensures D.IsQueue(EpollAfter(maxPlayerCount, w, steps, e, evfd), q)
    decreases |steps|
  {
    if steps != [] {
      StepWatched(maxPlayerCount, w, steps[0], e, queues, evfd);
      StepKeeps(maxPlayerCount, w, steps[0]);
      OpsKeepQueue(maxPlayerCount, w, steps[0], queues, evfd, q);
      D.PerformAllQueue(e, OpsOf(maxPlayerCount, w, steps[0], evfd), q);
      LaterSteps(steps, queues);
      RunKeepsQueue(maxPlayerCount, Apply(maxPlayerCount, w, steps[0]), steps[1..],
                    E.PerformAll(e, OpsOf(maxPlayerCount, w, steps[0], evfd)), queues, evfd, q);
    }
  }

  // ---- A lost wake-up ----

  lemma OnlyFirstCalled(e: E.EpollState, clients: map<int, Client>, queues: set<int>, fd: int, q: int, effects: D.Effects)
    requires Watched(e, clients, queues) && fd in clients && q in queues && effects(0) == DisconnectOps(fd)
    ensures var batch := [D.Reported(fd, E.EPOLLIN), D.Reported(q, E.EPOLLIN)];
      && D.Before(e, batch, effects, 0) == e
      && forall r: nat :: D.Reached(e, batch, effects, r) ==> r == 0
  {
    var batch := [D.Reported(fd, E.EPOLLIN), D.Reported(q, E.EPOLLIN)];
    assert D.Calls(e, batch, 0);
    D.BeforeStep(e, batch, effects, 0);
    D.NeverAddedInVain(e, effects(0), fd);
    D.PerformAllMonitored(e, effects(0), fd);
    assert effects(0)[0] == E.RemoveDescriptor(fd);
    assert D.FdAt(batch, 1) == fd;
    assert !D.InTurn(e, batch, effects, 1);
  }

  // The kernel reports a client and a queue together, and the handler of the client drops it: the
  // event of the queue is lost, and with items in the queue the lobby sleeps on.
  lemma DropLosesWakeUp<T(!new)>(e: E.EpollState, clients: map<int, Client>, queues: set<int>, fd: int, q: int,
        effects: D.Effects, queue: Q.Protocol<T>)
    requires Watched(e, clients, queues) && fd in clients && q in queues && D.IsQueue(e, q)
    requires effects(0) == DisconnectOps(fd)
    requires Q.Safe(queue) && queue.phase == Q.Waiting && queue.event
    ensures var batch := [D.Reported(fd, E.EPOLLIN), D.Reported(q, E.EPOLLIN)];
      && D.QueueEvent(e, batch, effects, 1) && 6 !in D.Run(e, batch, effects, 0).calls
      && Q.Enabled(queue, Q.Miss) && (Q.Asleep(Q.Apply(queue, Q.Miss)) <==> queue.data != [])
  {
    var batch := [D.Reported(fd, E.EPOLLIN), D.Reported(q, E.EPOLLIN)];
    OnlyFirstCalled(e, clients, queues, fd, q, effects);
    D.NeverAddedInVain(e, effects(0), fd);
    D.NeverAddedInVain(e, effects(0), q);
    D.DispatchExact(e, batch, effects, 6);
  }

  lemma NewQueueWatched(q: int)
    ensures D.IsQueue(E.PerformAll(E.NewEpoll(true), WatchQueue(q)), q)
  {
    var e0, add, handle := E.NewEpoll(true), E.AddDescriptor(q), E.AddEventHandler(q, E.EPOLLIN, ON_STATE_CHANGE);
    var e1 := E.Perform(e0, add).state;
    HandlerAdded(e1, q, E.EPOLLIN, ON_STATE_CHANGE);
    assert [add, handle][1..] == [handle] && [handle][1..] == [];
    assert E.PerformAll(e1, [handle]) == E.Perform(e1, handle).state;
  }

  lemma TableAfterRun(maxPlayerCount: nat, roomCount: nat, steps: seq<Step>, newClients: int, queues: set<int>, evfd: int -> int)
    requires IsRun(maxPlayerCount, Start(roomCount), steps) && NoQueueAccepted(steps, queues)
    requires newClients in queues && Apart(Start(roomCount), queues, evfd)
    ensures var e0 := E.PerformAll(E.NewEpoll(true), WatchQueue(newClients));
      var w, e := Final(maxPlayerCount, Start(roomCount), steps), EpollAfter(maxPlayerCount, Start(roomCount), steps, e0, evfd);
      Inv(w) && Apart(w, queues, evfd) && Watched(e, w.lobby.clients, queues) && D.IsQueue(e, newClients)
  {
    var none: map<int, Client> := map[];
    var e0 := E.PerformAll(E.NewEpoll(true), WatchQueue(newClients));
    StartOk(roomCount);
    NewQueueWatched(newClients);
    QueueWatched(E.NewEpoll(true), newClients, none, queues);
    RunWatched(maxPlayerCount, Start(roomCount), steps, e0, queues, evfd);
    RunKeepsQueue(maxPlayerCount, Start(roomCount), steps, e0, queues, evfd, newClients);
  }

  const TERMINATE: ProtocolData := ProtocolData(TERMINATE_CONNECTION, map[])

  // So after every run of the server, a client of the lobby that terminates in the same batch of events
  // as a connection arrives hides that connection: if any are queued, the lobby sleeps on.
  lemma ArrivalCanBeLost(maxPlayerCount: nat, roomCount: nat, steps: seq<Step>, newClients: int,
        queues: set<int>, evfd: int -> int, fd: int, effects: D.Effects, queue: Q.Protocol<int>)
    requires IsRun(maxPlayerCount, Start(roomCount), steps) && NoQueueAccepted(steps, queues)
    requires newClients in queues && Apart(Start(roomCount), queues, evfd)
    requires var w := Final(maxPlayerCount, Start(roomCount), steps);
      && LobbyFree(w) && fd in w.lobby.clients && effects(0) == DisconnectOps(fd)
      && Q.Safe(queue) && queue.phase == Q.Waiting && queue.event && queue.data == w.newClients
    ensures var e0 := E.PerformAll(E.NewEpoll(true), WatchQueue(newClients));
      var w, e := Final(maxPlayerCount, Start(roomCount), steps), EpollAfter(maxPlayerCount, Start(roomCount), steps, e0, evfd);
      var batch := [D.Reported(fd, E.EPOLLIN), D.Reported(newClients, E.EPOLLIN)];
      && Enabled(w, Message(fd, TERMINATE)) && OpsOf(maxPlayerCount, w, Message(fd, TERMINATE), evfd) == effects(0)
      && D.QueueEvent(e, batch, effects, 1) && 6 !in D.Run(e, batch, effects, 0).calls
      && (Q.Asleep(Q.Apply(queue, Q.Miss)) <==> w.newClients != [])
  {
    TableAfterRun(maxPlayerCount, roomCount, steps, newClients, queues, evfd);
    var w := Final(maxPlayerCount, Start(roomCount), steps);
    var e := EpollAfter(maxPlayerCount, Start(roomCount), steps, E.PerformAll(E.NewEpoll(true), WatchQueue(newClients)), evfd);
    WaitingInMap(w);
    DropLosesWakeUp(e, w.lobby.clients, queues, fd, newClients, effects, queue);
  }

  // ---- Every dispatch ----

  // The operations of a run of the server.
  ghost function RunOps(maxPlayerCount: nat, w: WorldState, steps: seq<Step>, evfd: int -> int): seq<E.Operation>
    requires IsRun(maxPlayerCount, w, steps)
    decreases |steps|
  {
    if steps == [] then []
    else OpsOf(maxPlayerCount, w, steps[0], evfd) + RunOps(maxPlayerCount, Apply(maxPlayerCount, w, steps[0]), steps[1..], evfd)
  }

  lemma {:induction false} RunOpsPerformed(maxPlayerCount: nat, w: WorldState, steps: seq<Step>, e: E.EpollState, evfd: int -> int)
    requires IsRun(maxPlayerCount, w, steps)
    ensures E.PerformAll(e, RunOps(maxPlayerCount, w, steps, evfd)) == EpollAfter(maxPlayerCount, w, steps, e, evfd)
    decreases |steps|
  {
    if steps != [] {
      var ops, w1 := OpsOf(maxPlayerCount, w, steps[0], evfd), Apply(maxPlayerCount, w, steps[0]);
      E.PerformAllAppend(e, ops, RunOps(maxPlayerCount, w1, steps[1..], evfd));
      RunOpsPerformed(maxPlayerCount, w1, steps[1..], E.PerformAll(e, ops), evfd);
    }
  }

  // Steps in which the lobby does nothing.
  predicate NotLobby(step: Step) {
    step.Accept? || step.Sit? || step.Leave? || step.Refuse? || step.Stop? || step.End?
  }

  ghost predicate OthersOnly(steps: seq<Step>) {
    forall i :: 0 <= i < |steps| ==> NotLobby(steps[i])
  }

  lemma {:induction false} OthersKeepClients(maxPlayerCount: nat, w: WorldState, steps: seq<Step>)
    requires IsRun(maxPlayerCount, w, steps) && OthersOnly(steps)
    ensures var w' := Final(maxPlayerCount, w, steps);
      w'.lobby.clients == w.lobby.clients && (LobbyFree(w) ==> LobbyFree(w'))
    decreases |steps|
  {
    if steps != [] {
      assert NotLobby(steps[0]);
      forall i | 0 <= i < |steps[1..]|
        ensures NotLobby(steps[1..][i])
      {
        assert steps[1..][i] == steps[i + 1];
      }
      OthersKeepClients(maxPlayerCount, Apply(maxPlayerCount, w, steps[0]), steps[1..]);
    }
  }

  // The one step of the lobby is that it drops the client.
  ghost predicate Drops(steps: seq<Step>, fd: int) {
    exists i :: 0 <= i < |steps| && steps[i] == Drop(fd) && OthersOnly(steps[..i]) && OthersOnly(steps[i + 1..])
  }

  lemma {:induction false} DroppedAt(maxPlayerCount: nat, w: WorldState, steps: seq<Step>, fd: int, i: nat)
    requires IsRun(maxPlayerCount, w, steps) && i < |steps| && steps[i] == Drop(fd) && OthersOnly(steps[i + 1..])
    ensures fd !in Final(maxPlayerCount, w, steps).lobby.clients
    decreases |steps|
  {
    var w1 := Apply(maxPlayerCount, w, steps[0]);
    if i == 0 {
      OthersKeepClients(maxPlayerCount, w1, steps[1..]);
    } else {
      assert steps[1..][i - 1] == steps[i] && steps[1..][i..] == steps[i + 1..];
      DroppedAt(maxPlayerCount, w1, steps[1..], fd, i - 1);
    }
  }

  lemma DroppedIsGone(maxPlayerCount: nat, w: WorldState, steps: seq<Step>, fd: int)
    requires IsRun(maxPlayerCount, w, steps) && Drops(steps, fd)
    ensures fd !in Final(maxPlayerCount, w, steps).lobby.clients
  {
    var i :| 0 <= i < |steps| && steps[i] == Drop(fd) && OthersOnly(steps[..i]) && OthersOnly(steps[i + 1..]);
    DroppedAt(maxPlayerCount, w, steps, fd, i);
  }

  // _onClientDisconnect is the handler of a client for these two of the event types.
  predicate ForHangUp(k: nat) {
    k == 2 || k == 5
  }

  // What happens in the server from a check of the loop to the next: the steps of the called handler,
  // if any, with those of the other threads in between.
  ghost predicate CheckDone(maxPlayerCount: nat, w: WorldState, steps: seq<Step>, w': WorldState, s: E.EpollState,
        batch: seq<D.Reported>, effects: D.Effects, p: nat, queues: set<int>, evfd: int -> int)
    requires p < 6 * |batch|
  {
    && IsRun(maxPlayerCount, w, steps) && w' == Final(maxPlayerCount, w, steps) && NoQueueAccepted(steps, queues)
    && if D.Calls(s, batch, p) then
         && effects(p) == RunOps(maxPlayerCount, w, steps, evfd) && LobbyFree(w')
         && (ForHangUp(p % 6) && D.FdAt(batch, p) !in queues ==> Drops(steps, D.FdAt(batch, p)))
       else OthersOnly(steps)
  }

  // Between two checks: the server is in w and the lobby's table is s.
  ghost predicate AtCheck(w: WorldState, s: E.EpollState, queues: set<int>, evfd: int -> int) {
    Inv(w) && LobbyFree(w) && Apart(w, queues, evfd) && Watched(s, w.lobby.clients, queues)
  }

  function TableAfterCall(s: E.EpollState, batch: seq<D.Reported>, effects: D.Effects, p: nat): E.EpollState
    requires p < 6 * |batch|
  {
    if D.Calls(s, batch, p) then E.PerformAll(s, effects(p)) else s
  }

  lemma CheckWatched(maxPlayerCount: nat, w: WorldState, steps: seq<Step>, w': WorldState, s: E.EpollState,
        batch: seq<D.Reported>, effects: D.Effects, p: nat, queues: set<int>, evfd: int -> int)
    requires p < 6 * |batch| && AtCheck(w, s, queues, evfd)
    requires CheckDone(maxPlayerCount, w, steps, w', s, batch, effects, p, queues, evfd)
    ensures AtCheck(w', TableAfterCall(s, batch, effects, p), queues, evfd)
    ensures var fd := D.FdAt(batch, p);
      D.Calls(s, batch, p) && ForHangUp(p % 6) && fd !in queues ==> fd !in TableAfterCall(s, batch, effects, p).monitored
  {
    RunWatched(maxPlayerCount, w, steps, s, queues, evfd);
    if D.Calls(s, batch, p) {
      RunOpsPerformed(maxPlayerCount, w, steps, s, evfd);
      if ForHangUp(p % 6) && D.FdAt(batch, p) !in queues {
        DroppedIsGone(maxPlayerCount, w, steps, D.FdAt(batch, p));
      }
    } else {
      OthersKeepClients(maxPlayerCount, w, steps);
    }
  }

  // The loop makes check p: no descriptor up to there was gone when its turn came.
  ghost predicate ComesTo(tables: nat -> E.EpollState, batch: seq<D.Reported>, p: nat) {
    p < 6 * |batch| && forall q: nat :: q <= p ==> D.FdAt(batch, q) in tables(q).monitored
  }

  // The lobby's loop dispatches this batch, at each check with one of these tables, while the server
  // goes through these worlds. Queues do not hang up.
  ghost predicate Dispatching(maxPlayerCount: nat, tables: nat -> E.EpollState, batch: seq<D.Reported>, effects: D.Effects,
        worlds: nat -> WorldState, steps: nat -> seq<Step>, queues: set<int>, evfd: int -> int)
  {
    && AtCheck(worlds(0), tables(0), queues, evfd)
    && (forall i :: 0 <= i < |batch| && HangsUp(batch[i]) ==> batch[i].fd !in queues)
    && forall p: nat {:trigger ComesTo(tables, batch, p)} :: ComesTo(tables, batch, p) ==>
         && tables(p + 1) == D.AfterCheck(tables(p), batch, effects, p)
         && CheckDone(maxPlayerCount, worlds(p), steps(p), worlds(p + 1), tables(p), batch, effects, p, queues, evfd)
  }

  predicate HangsUp(r: D.Reported) {
    r.events & (E.EPOLLRDHUP | E.EPOLLHUP) != 0
  }

  // The kernel reports the k-th event type.
  predicate Reports(r: D.Reported, k: nat)
    requires k < 6
  {
    r.events & E.ALL_EVENT_TYPES[k] == E.ALL_EVENT_TYPES[k]
  }

  lemma HangUpBits(r: D.Reported)
    requires HangsUp(r)
    ensures Reports(r, 2) || Reports(r, 5)
  {
  }

  lemma OneCheck(maxPlayerCount: nat, tables: nat -> E.EpollState, batch: seq<D.Reported>, effects: D.Effects,
        worlds: nat -> WorldState, steps: nat -> seq<Step>, queues: set<int>, evfd: int -> int, p: nat)
    requires Dispatching(maxPlayerCount, tables, batch, effects, worlds, steps, queues, evfd)
    requires ComesTo(tables, batch, p) && AtCheck(worlds(p), tables(p), queues, evfd)
    ensures var s, fd := tables(p), D.FdAt(batch, p);
      && AtCheck(worlds(p + 1), TableAfterCall(s, batch, effects, p), queues, evfd)
      && (D.Calls(s, batch, p) && ForHangUp(p % 6) && fd !in queues ==> fd !in TableAfterCall(s, batch, effects, p).monitored)
      && tables(p + 1) == D.AfterCheck(s, batch, effects, p)
  {
    CheckWatched(maxPlayerCount, worlds(p), steps(p), worlds(p + 1), tables(p), batch, effects, p, queues, evfd);
  }

  lemma Position(batch: seq<D.Reported>, i: nat, k: nat, p: nat)
    requires i < |batch| && k < 6 && p == 6 * i + k
    ensures p < 6 * |batch| && p / 6 == i && p % 6 == k && D.FdAt(batch, p) == batch[i].fd
  {
    D.PositionOf(i, k);
  }

  lemma HungUpAt(batch: seq<D.Reported>, p: nat) returns (i: nat)
    requires p < 6 * |batch| && D.HungUp(batch, p)
    ensures i < |batch| && p == 6 * i + 5 && D.FdAt(batch, p) == batch[i].fd && HangsUp(batch[i])
  {
    i := p / 6;
  }

  // A removal after the last check changes nothing if the descriptor is gone by then.
  lemma AfterRemoval(s: E.EpollState, batch: seq<D.Reported>, effects: D.Effects, p: nat)
    requires p < 6 * |batch|
    requires D.HungUp(batch, p) ==> D.FdAt(batch, p) !in TableAfterCall(s, batch, effects, p).monitored
    ensures D.AfterCheck(s, batch, effects, p) == TableAfterCall(s, batch, effects, p)
  {
  }

  // A monitored client that is reported to have hung up is removed by its handler.
  lemma HangUpCalled(w: WorldState, s: E.EpollState, queues: set<int>, evfd: int -> int,
        batch: seq<D.Reported>, effects: D.Effects, i: nat, k: nat, p: nat)
    requires AtCheck(w, s, queues, evfd) && i < |batch| && batch[i].fd in s.monitored && batch[i].fd !in queues
    requires ForHangUp(k) && Reports(batch[i], k) && p == 6 * i + k
    requires D.Calls(s, batch, p) ==> batch[i].fd !in TableAfterCall(s, batch, effects, p).monitored
    ensures batch[i].fd !in D.AfterCheck(s, batch, effects, p).monitored
    ensures batch[i].fd !in TableAfterCall(s, batch, effects, p).monitored
  {
    assert IsClient(s, batch[i].fd);
    Position(batch, i, k, p);
  }

  lemma Earlier(tables: nat -> E.EpollState, batch: seq<D.Reported>, p: nat, q: nat)
    requires ComesTo(tables, batch, p) && q <= p
    ensures ComesTo(tables, batch, q)
  {
  }

  lemma StillThere(tables: nat -> E.EpollState, batch: seq<D.Reported>, p: nat, i: nat, k: nat, q: nat)
    requires ComesTo(tables, batch, p) && i < |batch| && k < 6 && q == 6 * i + k && q <= p
    ensures batch[i].fd in tables(q).monitored
  {
    Position(batch, i, k, q);
  }

  lemma RemovedAt(maxPlayerCount: nat, tables: nat -> E.EpollState, batch: seq<D.Reported>, effects: D.Effects,
        worlds: nat -> WorldState, steps: nat -> seq<Step>, queues: set<int>, evfd: int -> int, i: nat, k: nat, p: nat)
    requires Dispatching(maxPlayerCount, tables, batch, effects, worlds, steps, queues, evfd)
    requires i < |batch| && ForHangUp(k) && HangsUp(batch[i]) && Reports(batch[i], k)
    requires p == 6 * i + k && ComesTo(tables, batch, p) && AtCheck(worlds(p), tables(p), queues, evfd)
    ensures batch[i].fd !in tables(p + 1).monitored
    ensures batch[i].fd !in TableAfterCall(tables(p), batch, effects, p).monitored
  {
    Position(batch, i, k, p);
    StillThere(tables, batch, p, i, k, p);
    assert batch[i].fd !in queues;
    OneCheck(maxPlayerCount, tables, batch, effects, worlds, steps, queues, evfd, p);
    HangUpCalled(worlds(p), tables(p), queues, evfd, batch, effects, i, k, p);
  }

  // At each check the loop comes to, the table is that of the server's state: the removal after the
  // last check of a client that hung up finds it removed already by its own handler.
  lemma {:induction false} BatchWatched(maxPlayerCount: nat, tables: nat -> E.EpollState, batch: seq<D.Reported>, effects: D.Effects,
        worlds: nat -> WorldState, steps: nat -> seq<Step>, queues: set<int>, evfd: int -> int, p: nat)
    requires Dispatching(maxPlayerCount, tables, batch, effects, worlds, steps, queues, evfd)
    requires p > 0 ==> ComesTo(tables, batch, p - 1)
    ensures AtCheck(worlds(p), tables(p), queues, evfd)
    decreases p, 0
  {
    if p > 0 {
      var last: nat := p - 1;
      BatchWatched(maxPlayerCount, tables, batch, effects, worlds, steps, queues, evfd, last);
      OneCheck(maxPlayerCount, tables, batch, effects, worlds, steps, queues, evfd, last);
      if D.HungUp(batch, last) {
        HungUpIsGone(maxPlayerCount, tables, batch, effects, worlds, steps, queues, evfd, last);
      }
      AfterRemoval(tables(last), batch, effects, last);
    }
  }

  lemma {:induction false} HungUpIsGone(maxPlayerCount: nat, tables: nat -> E.EpollState, batch: seq<D.Reported>, effects: D.Effects,
        worlds: nat -> WorldState, steps: nat -> seq<Step>, queues: set<int>, evfd: int -> int, p: nat)
    requires Dispatching(maxPlayerCount, tables, batch, effects, worlds, steps, queues, evfd)
    requires ComesTo(tables, batch, p) && D.HungUp(batch, p) && AtCheck(worlds(p), tables(p), queues, evfd)
    ensures D.FdAt(batch, p) !in TableAfterCall(tables(p), batch, effects, p).monitored
    decreases p, 1
  {
    var i := HungUpAt(batch, p);
    HangUpBits(batch[i]);
    if Reports(batch[i], 5) {
      RemovedAt(maxPlayerCount, tables, batch, effects, worlds, steps, queues, evfd, i, 5, p);
    } else {
      Earlier(tables, batch, p, p - 2);
      NoReadHangUp(maxPlayerCount, tables, batch, effects, worlds, steps, queues, evfd, i, p - 3);
    }
  }

  // After the check for EPOLLRDHUP the loop goes on only without that event.
  lemma {:induction false} NoReadHangUp(maxPlayerCount: nat, tables: nat -> E.EpollState, batch: seq<D.Reported>, effects: D.Effects,
        worlds: nat -> WorldState, steps: nat -> seq<Step>, queues: set<int>, evfd: int -> int, i: nat, r: nat)
    requires Dispatching(maxPlayerCount, tables, batch, effects, worlds, steps, queues, evfd)
    requires i < |batch| && HangsUp(batch[i]) && r == 6 * i + 2 && ComesTo(tables, batch, r + 1)
    ensures !Reports(batch[i], 2)
    decreases r, 1
  {
    Earlier(tables, batch, r + 1, r);
    Earlier(tables, batch, r + 1, r - 1);
    BatchWatched(maxPlayerCount, tables, batch, effects, worlds, steps, queues, evfd, r);
    StillThere(tables, batch, r + 1, i, 3, r + 1);
    if Reports(batch[i], 2) {
      RemovedAt(maxPlayerCount, tables, batch, effects, worlds, steps, queues, evfd, i, 2, r);
    }
  }

  // The loop returns before check last, or after all of them.
  ghost predicate Returns(tables: nat -> E.EpollState, batch: seq<D.Reported>, last: nat) {
    (last > 0 ==> ComesTo(tables, batch, last - 1)) && !ComesTo(tables, batch, last)
  }

  lemma ReturnsWhere(tables: nat -> E.EpollState, batch: seq<D.Reported>, last: nat)
    requires Returns(tables, batch, last)
    ensures last <= 6 * |batch| && (last == 6 * |batch| || D.FdAt(batch, last) !in tables(last).monitored)
  {
  }

  // From check p to last, the loop calls the handlers that the tables have.
  ghost predicate CallsFrom(d: D.Dispatched, tables: nat -> E.EpollState, batch: seq<D.Reported>, p: nat, last: nat)
    requires last <= 6 * |batch|
  {
    && d.state == tables(last)
    && forall q: nat :: q in d.calls <==> p <= q < last && D.Calls(tables(q), batch, q)
  }

  lemma RunEnds(tables: nat -> E.EpollState, batch: seq<D.Reported>, effects: D.Effects, last: nat, s: E.EpollState)
    requires last <= 6 * |batch| && Returns(tables, batch, last) && s == tables(last)
    ensures CallsFrom(D.Run(s, batch, effects, last), tables, batch, last, last)
  {
    ReturnsWhere(tables, batch, last);
    assert D.Run(s, batch, effects, last) == D.Dispatched(s, []);
  }

  lemma RunOn(tables: nat -> E.EpollState, batch: seq<D.Reported>, effects: D.Effects, p: nat, last: nat,
        s: E.EpollState, next: E.EpollState)
    requires p < last <= 6 * |batch| && s == tables(p) && D.FdAt(batch, p) in s.monitored
    requires next == D.AfterCheck(s, batch, effects, p) && CallsFrom(D.Run(next, batch, effects, p + 1), tables, batch, p + 1, last)
    ensures CallsFrom(D.Run(s, batch, effects, p), tables, batch, p, last)
  {
    var d, rest := D.Run(s, batch, effects, p), D.Run(next, batch, effects, p + 1);
    assert d == if D.Calls(s, batch, p) then rest.(calls := [p] + rest.calls) else rest;
  }

  // Which checks the loop makes and with which table it returns.
  lemma {:induction false} RunIs(tables: nat -> E.EpollState, batch: seq<D.Reported>, effects: D.Effects, p: nat, last: nat)
    requires p <= last <= 6 * |batch| && Returns(tables, batch, last)
    requires forall r: nat {:trigger ComesTo(tables, batch, r)} :: ComesTo(tables, batch, r) ==>
               tables(r + 1) == D.AfterCheck(tables(r), batch, effects, r)
    ensures CallsFrom(D.Run(tables(p), batch, effects, p), tables, batch, p, last)
    decreases last - p
  {
    if p == last {
      RunEnds(tables, batch, effects, last, tables(last));
    } else {
      Earlier(tables, batch, last - 1, p);
      RunIs(tables, batch, effects, p + 1, last);
      RunOn(tables, batch, effects, p, last, tables(p), tables(p + 1));
    }
  }

  // So a client whose handler is called is in the lobby's map, where at() finds it.
  lemma HandlerFindsClient(maxPlayerCount: nat, tables: nat -> E.EpollState, batch: seq<D.Reported>, effects: D.Effects,
        worlds: nat -> WorldState, steps: nat -> seq<Step>, queues: set<int>, evfd: int -> int, last: nat, p: nat, msg: ProtocolData)
    requires Dispatching(maxPlayerCount, tables, batch, effects, worlds, steps, queues, evfd) && Returns(tables, batch, last)
    requires p < 6 * |batch| && p in D.Run(tables(0), batch, effects, 0).calls && D.FdAt(batch, p) !in queues
    ensures Enabled(worlds(p), Drop(D.FdAt(batch, p))) && Enabled(worlds(p), Message(D.FdAt(batch, p), msg))
  {
    ReturnsWhere(tables, batch, last);
    RunIs(tables, batch, effects, 0, last);
    Earlier(tables, batch, last - 1, p);
    if p > 0 { Earlier(tables, batch, p, p - 1); }
    BatchWatched(maxPlayerCount, tables, batch, effects, worlds, steps, queues, evfd, p);
    WaitingInMap(worlds(p));
  }

  // And when the loop returns, early or not, its table is again that of the server's state.
  lemma DispatchWatched(maxPlayerCount: nat, tables: nat -> E.EpollState, batch: seq<D.Reported>, effects: D.Effects,
        worlds: nat -> WorldState, steps: nat -> seq<Step>, queues: set<int>, evfd: int -> int, last: nat)
    requires Dispatching(maxPlayerCount, tables, batch, effects, worlds, steps, queues, evfd) && Returns(tables, batch, last)
    ensures AtCheck(worlds(last), D.Run(tables(0), batch, effects, 0).state, queues, evfd)
  {
    ReturnsWhere(tables, batch, last);
    RunIs(tables, batch, effects, 0, last);
    BatchWatched(maxPlayerCount, tables, batch, effects, worlds, steps, queues, evfd, last);
  }
}
