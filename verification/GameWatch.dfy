// The epoll of a game (src/game_logic/game_room/Game.cpp) against its seats. Unlike the lobby, a game
// drops a client without removing its descriptor, so its table also holds closed descriptors.
module GameWatch {
  import opened Options
  import opened ProtocolMessages
  import opened Rooms
  import opened GameHandlers
  import opened GameRuns
  import LobbyWatch
  import D = Dispatch
  import E = Epolls

  const ON_CLIENT_WRITE := LobbyWatch.ON_CLIENT_WRITE
  const ON_CLIENT_DISCONNECT := LobbyWatch.ON_CLIENT_DISCONNECT

  // The registration of a client that took a seat, up to the call that throws.
  function Register(e: E.EpollState, fd: int): E.Outcome {
    var write := E.Perform(E.Perform(e, E.AddDescriptor(fd)).state, E.AddEventHandler(fd, E.EPOLLIN, ON_CLIENT_WRITE));
    if write.threw then write
    else E.Perform(write.state, E.AddEventHandler(fd, E.EPOLLRDHUP | E.EPOLLHUP, ON_CLIENT_DISCONNECT))
  }

  // Destroying the client of a seat closes its descriptor.
  function CloseSeat(e: E.EpollState, seat: Option<Client>, after: GameView): E.EpollState {
    if seat.Some? && !after.Seated(seat.value.fd) then E.Perform(e, E.Closed(seat.value.fd)).state else e
  }

  function CloseLost(e: E.EpollState, g: GameView, after: GameView): E.EpollState {
    CloseSeat(CloseSeat(e, g.io.thread.seat1, after), g.io.thread.seat2, after)
  }

  // The game once the table holds its next client, before the time checks.
  function Known(g: GameView): GameView
    requires g.io.input != []
  {
    g.(io := TakeSeat(g.io), held := g.held + {g.io.input[0].fd})
  }

  // Nobody sat down, and neither the table nor the input queue changed.
  ghost predicate OnlyLost(g: GameView, after: GameView) {
    after.held == g.held && after.io.input == g.io.input && forall fd :: after.Seated(fd) ==> g.Seated(fd)
  }

  // What an event does to the table, as long as nothing throws.
  ghost function TableAfter(e: E.EpollState, g: GameView, event: Event): E.EpollState
    requires Possible(g, event)
  {
    match event
    case Arrival(_, _) =>
      if g.BothSeated() then e
      else CloseLost(Register(e, g.io.input[0].fd).state, Known(g), After(g, event))
    case Request(_, _, _) => CloseLost(e, g, After(g, event))
    case HangUp(_) => CloseLost(e, g, After(g, event))
    case Forgotten(fd) => E.Perform(e, E.RemoveDescriptor(fd)).state
    case _ => e
  }

  // The table holds the eventfd of the input queue and the descriptors in held, those with the handlers
  // of a client; of these the kernel watches the eventfd and those of seated clients.
  ghost predicate TableOk(e: E.EpollState, g: GameView, evfd: int) {
    && E.CoherentButClosed(e)
    && (forall fd :: fd in e.monitored <==> fd == evfd || fd in g.held)
    && (forall fd :: fd in e.monitored ==> e.monitored[fd].isInitialized)
    && (forall fd :: fd in g.held ==> e.monitored[fd] == LobbyWatch.CLIENT_HANDLERS)
    && (forall fd :: fd in e.kernel <==> fd == evfd || g.Seated(fd))
    && (forall fd :: g.Seated(fd) ==> fd in g.held)
    && evfd !in g.held
  }

  // No player has the descriptor of the queue.
  ghost predicate QueueApart(g: GameView, evfd: int) {
    forall i :: 0 <= i < |g.io.input| ==> g.io.input[i].fd != evfd
  }

  // The cut of the edge text of a command goes out of range.
  predicate CutsShort(g: GameView, fd: int, msg: ProtocolData) {
    && msg.methodName == GAME_COMMAND
    && !g.paused && (SeatedAt(g.io.thread.seat1, fd) <==> g.board.playerOneTurn)
    && msg.HasField("add_edge") && |msg.GetField("add_edge")| < 3
  }

  // The events at which an exception leaves the event loop.
  predicate Throws(g: GameView, event: Event) {
    match event
    case Arrival(_, _) => g.io.input != [] && (g.BothSeated() || g.io.input[0].fd in g.held)
    case Request(fd, msg, _) => CutsShort(g, fd, msg)
    case StaleRead(_) => true
    case _ => false
  }

  // ---- Which calls of the table throw ----

  lemma HandlerCall(e: E.EpollState, fd: int, eventType: bv32, handler: E.Handler)
    requires E.CoherentButClosed(e) && fd in e.monitored
    ensures var o := E.Perform(e, E.AddEventHandler(fd, eventType, handler));
      && E.CoherentButClosed(o.state)
      && (o.threw <==> e.monitored[fd].isInitialized && fd !in e.kernel)
      && (!o.threw ==>
            && (forall f :: f in o.state.monitored <==> f in e.monitored)
            && (forall f :: f in o.state.kernel <==> f in e.kernel || f == fd)
            && o.state.monitored[fd] == E.SetHandlers(e.monitored[fd], eventType, handler).(isInitialized := true)
            && (forall f :: f in e.monitored && f != fd ==> o.state.monitored[f] == e.monitored[f]))
  {
    E.PerformAnyway(e, E.AddEventHandler(fd, eventType, handler));
  }

  // The registration of an arriving client throws exactly if the table already holds its descriptor.
  lemma RegisterExact(e: E.EpollState, g: GameView, evfd: int, fd: int)
    requires TableOk(e, g, evfd) && fd != evfd && !g.Seated(fd)
    ensures var o := Register(e, fd);
      && (o.threw <==> fd in g.held)
      && (!o.threw ==>
            && E.CoherentButClosed(o.state)
            && (forall f :: f in o.state.monitored <==> f in e.monitored || f == fd)
            && (forall f :: f in o.state.kernel <==> f in e.kernel || f == fd)
            && o.state.monitored[fd] == LobbyWatch.CLIENT_HANDLERS
            && (forall f :: f in e.monitored ==> o.state.monitored[f] == e.monitored[f]))
  {
    var added := E.Perform(e, E.AddDescriptor(fd)).state;
    E.PerformAnyway(e, E.AddDescriptor(fd));
    HandlerCall(added, fd, E.EPOLLIN, ON_CLIENT_WRITE);
    var write := E.Perform(added, E.AddEventHandler(fd, E.EPOLLIN, ON_CLIENT_WRITE));
    if !write.threw {
      LobbyWatch.HandlersSet(added.monitored[fd]);
      HandlerCall(write.state, fd, E.EPOLLRDHUP | E.EPOLLHUP, ON_CLIENT_DISCONNECT);
    }
  }

  lemma SeatClosed(e: E.EpollState, seat: Option<Client>, after: GameView)
    requires E.CoherentButClosed(e)
    ensures var e' := CloseSeat(e, seat, after);
      && E.CoherentButClosed(e') && e'.monitored == e.monitored
      && (forall fd :: fd in e'.kernel <==> fd in e.kernel && !(SeatedAt(seat, fd) && !after.Seated(fd)))
  {
  }

  // Players left their seats, and nothing else happened to seats or table.
  lemma LostClosed(e: E.EpollState, g: GameView, after: GameView, evfd: int)
    requires TableOk(e, g, evfd) && OnlyLost(g, after)
    ensures TableOk(CloseLost(e, g, after), after, evfd)
  {
    SeatClosed(e, g.io.thread.seat1, after);
    SeatClosed(CloseSeat(e, g.io.thread.seat1, after), g.io.thread.seat2, after);
  }

  // ---- What the events do to seats and table ----

  lemma DenyLoses(g: GameView, fd: int)
    requires g.Seated(fd)
    ensures OnlyLost(g, DenyPlayer(g, fd).game)
  {
  }

  lemma AnswerLoses(g: GameView, fd: int, msg: ProtocolData)
    requires Possible(g, Request(fd, msg, 0))
    ensures OnlyLost(g, Answer(g, fd, msg).game)
  {
    if Answer(g, fd, msg) == DenyPlayer(g, fd) { DenyLoses(g, fd); }
  }

  lemma RequestLoses(g: GameView, fd: int, msg: ProtocolData, now: Millis)
    requires UniqueFds(g.io) && Possible(g, Request(fd, msg, now))
    ensures OnlyLost(g, After(g, Request(fd, msg, now)))
  {
    AnswerKeeps(g, fd, msg);
    AnswerLoses(g, fd, msg);
    var h := Answer(g, fd, msg);
    if !h.stopped {
      StillSeated(g, fd, msg);
      UpdateSeenSeats(h.game, fd, now);
    }
  }

  lemma ArrivalLoses(g: GameView, now1: Millis, now2: Millis)
    requires UniqueFds(g.io) && Possible(g, Arrival(now1, now2)) && !Throws(g, Arrival(now1, now2))
    ensures UniqueFds(Known(g).io) && OnlyLost(Known(g), After(g, Arrival(now1, now2)))
  {
    if Known(g).BothSeated() { CheckBothSeats(Known(g), now1, now2); }
  }

  lemma KnownTable(e: E.EpollState, g: GameView, evfd: int)
    requires TableOk(e, g, evfd) && UniqueFds(g.io) && g.io.input != [] && g.io.input[0].fd != evfd
    requires !g.BothSeated() && g.io.input[0].fd !in g.held
    ensures TableOk(Register(e, g.io.input[0].fd).state, Known(g), evfd)
  {
    var fd := g.io.input[0].fd;
    RegisterExact(e, g, evfd, fd);
    assert forall f :: Known(g).Seated(f) <==> g.Seated(f) || f == fd;
    assert forall f :: f in Known(g).held <==> f in g.held || f == fd;
  }

  // Every event that does not throw keeps the table as described, and an arrival at a free seat
  // throws exactly when the table refuses its registration.
  lemma EventTable(e: E.EpollState, g: GameView, event: Event, evfd: int)
    requires TableOk(e, g, evfd) && UniqueFds(g.io) && Possible(g, event) && QueueApart(g, evfd)
    ensures !Throws(g, event) ==> TableOk(TableAfter(e, g, event), After(g, event), evfd)
    ensures event.Arrival? && !g.BothSeated() ==> (Throws(g, event) <==> Register(e, g.io.input[0].fd).threw)
  {
    match event
    case Arrival(now1, now2) =>
      if !g.BothSeated() { RegisterExact(e, g, evfd, g.io.input[0].fd); }
      if !Throws(g, event) {
        KnownTable(e, g, evfd);
        ArrivalLoses(g, now1, now2);
        LostClosed(Register(e, g.io.input[0].fd).state, Known(g), After(g, event), evfd);
      }
    case Request(fd, msg, now) =>
      RequestLoses(g, fd, msg, now);
      LostClosed(e, g, After(g, event), evfd);
    case HangUp(_) => LostClosed(e, g, After(g, event), evfd);
    case Forgotten(fd) => E.PerformAnyway(e, E.RemoveDescriptor(fd));
    case _ =>
  }

  // ---- Every run ----

  ghost predicate NoneThrows(g: GameView, events: seq<Event>)
    requires IsGameRun(g, events)
    decreases |events|
  {
    events == [] || (!Throws(g, events[0]) && NoneThrows(After(g, events[0]), events[1..]))
  }

  ghost function TableFinal(e: E.EpollState, g: GameView, events: seq<Event>): E.EpollState
    requires IsGameRun(g, events)
    decreases |events|
  {
    if events == [] then e else TableFinal(TableAfter(e, g, events[0]), After(g, events[0]), events[1..])
  }

  ghost predicate PushesApart(events: seq<Event>, evfd: int) {
    forall i :: 0 <= i < |events| && events[i].Pushed? ==> events[i].client.fd != evfd
  }

  lemma EventApart(g: GameView, event: Event, evfd: int)
    requires UniqueFds(g.io) && Possible(g, event) && !Throws(g, event) && QueueApart(g, evfd)
    requires event.Pushed? ==> event.client.fd != evfd
    ensures UniqueFds(After(g, event).io) && QueueApart(After(g, event), evfd)
  {
    match event
    case Arrival(now1, now2) =>
      ArriveKeeps(g, now1, now2);
      ArrivalLoses(g, now1, now2);
    case Request(fd, msg, now) =>
      MessageKeeps(g, fd, msg, now);
      RequestLoses(g, fd, msg, now);
    case _ =>
  }

  lemma {:induction false} RunTable(e: E.EpollState, g: GameView, events: seq<Event>, evfd: int)
    requires TableOk(e, g, evfd) && UniqueFds(g.io) && QueueApart(g, evfd) && PushesApart(events, evfd)
    requires IsGameRun(g, events) && NoneThrows(g, events)
    ensures var g' := GameAfter(g, events);
      TableOk(TableFinal(e, g, events), g', evfd) && UniqueFds(g'.io) && QueueApart(g', evfd)
    decreases |events|
  {
    if events != [] {
      EventTable(e, g, events[0], evfd);
      EventApart(g, events[0], evfd);
      forall i | 0 <= i < |events[1..]| && events[1..][i].Pushed?
        ensures events[1..][i].client.fd != evfd
      {
        assert events[1..][i] == events[i + 1];
      }
      RunTable(TableAfter(e, g, events[0]), After(g, events[0]), events[1..], evfd);
    }
  }

  // The table of a new game, once its queue is registered.
  function NewTable(evfd: int): E.EpollState {
    E.PerformAll(E.NewEpoll(true), [E.AddDescriptor(evfd), E.AddEventHandler(evfd, E.EPOLLIN, ON_CLIENT_WRITE)])
  }

  lemma NewTableOk(evfd: int)
    ensures TableOk(NewTable(evfd), NEW_GAME, evfd)
  {
    var e0 := E.NewEpoll(true);
    var add, handle := E.AddDescriptor(evfd), E.AddEventHandler(evfd, E.EPOLLIN, ON_CLIENT_WRITE);
    var e1 := E.Perform(e0, add).state;
    E.PerformAnyway(e0, add);
    HandlerCall(e1, evfd, E.EPOLLIN, ON_CLIENT_WRITE);
    assert [add, handle][1..] == [handle] && [handle][1..] == [];
    assert E.PerformAll(e1, [handle]) == E.Perform(e1, handle).state;
  }

  // After any run of a game in which nothing has thrown, its table holds the queue and exactly the
  // descriptors in held, of which the kernel watches those of seated clients; and what comes next is
  // refused by the table exactly if it is the arrival of a descriptor still held.
  lemma GameTable(events: seq<Event>, next: Event, evfd: int)
    requires IsGameRun(NEW_GAME, events) && NoneThrows(NEW_GAME, events) && PushesApart(events, evfd)
    requires Possible(GameAfter(NEW_GAME, events), next)
    ensures var g, e := GameAfter(NEW_GAME, events), TableFinal(NewTable(evfd), NEW_GAME, events);
      && TableOk(e, g, evfd)
      && (next.Arrival? && !g.BothSeated() ==> (Register(e, g.io.input[0].fd).threw <==> g.io.input[0].fd in g.held))
  {
    NewTableOk(evfd);
    RunTable(NewTable(evfd), NEW_GAME, events, evfd);
    EventTable(TableFinal(NewTable(evfd), NEW_GAME, events), GameAfter(NEW_GAME, events), next, evfd);
  }

  // An arrival adds its descriptor to the table, only the removal of a hung-up one takes it out, and
  // a client stays in the table however it is dropped.
  lemma HeldChanges(g: GameView, event: Event)
    requires UniqueFds(g.io) && Possible(g, event)
    ensures After(g, event).held ==
            if event.Arrival? && !Throws(g, event) then g.held + {g.io.input[0].fd}
            else if event.Forgotten? then g.held - {event.fd}
            else g.held
  {
    match event
    case Arrival(now1, now2) =>
      if !Throws(g, event) { ArrivalLoses(g, now1, now2); }
    case Request(fd, msg, now) => RequestLoses(g, fd, msg, now);
    case _ =>
  }

  // ---- A read of a client that was dropped ----

  const PING: ProtocolData := ProtocolData(GAME_PING, map[])

  // A message of fd makes the time check drop the other player.
  ghost predicate TimesOut(g: GameView, fd: int, other: int, now: Millis) {
    && UniqueFds(g.io) && g.Seated(fd) && g.Seated(other) && fd != other
    && Other(g, fd).1 != 0 && Elapsed(now, Other(g, fd).1) > MAX_INACTIVITY_MS
  }

  // A read event of that player in the same batch then finds no client, and the read throws.
  lemma TimeoutThrows(g: GameView, fd: int, other: int, now: Millis, parsed: Option<seq<ProtocolData>>, clock: nat -> Millis)
    requires TimesOut(g, fd, other, now) && other in g.held
    requires parsed.Some? ==> Defined(HandleMessage(g, fd, PING, now).game, parsed.value)
    ensures var g' := After(g, Request(fd, PING, now));
      && !g'.Seated(other) && Possible(g', StaleRead(other)) && UniqueFds(g'.io)
      && HandleWrite(g', other, parsed, clock) == After(g', StaleRead(other)) && Throws(g', StaleRead(other))
  {
    UpdateSeenSeats(g, fd, now);
  }

  lemma TimeoutCloses(e: E.EpollState, g: GameView, fd: int, other: int, now: Millis)
    requires TimesOut(g, fd, other, now)
    ensures TableAfter(e, g, Request(fd, PING, now)) == E.PerformAll(e, [E.Closed(other)])
  {
    UpdateSeenSeats(g, fd, now);
    assert [E.Closed(other)][1..] == [];
  }

  lemma OnlyReadBits(md: E.MonitoredDescriptor, k: nat)
    requires k < 6
    ensures md.HasHandler(E.EPOLLIN & E.ALL_EVENT_TYPES[k]) <==> k == 0 && md.inHandler.Some?
  {
  }

  // Of the checks of a read event the first calls a handler, here to close a descriptor.
  lemma FirstSixChecks(e: E.EpollState, batch: seq<D.Reported>, effects: D.Effects)
    requires |batch| > 0 && batch[0].events == E.EPOLLIN && D.OnlyCloses(effects(0))
    ensures forall r: nat :: r < 6 && D.HasCall(e, batch, effects, r) ==> D.OnlyCloses(effects(r))
  {
    forall r: nat | 0 < r < 6
      ensures !D.HasCall(e, batch, effects, r)
    {
      var here := D.Before(e, batch, effects, r);
      if batch[0].fd in here.monitored { OnlyReadBits(here.monitored[batch[0].fd], r); }
    }
  }

  // And the loop does go on to it: the message only closed the descriptor, which stays monitored.
  lemma StaleReadReached(e: E.EpollState, g: GameView, evfd: int, fd: int, other: int, now: Millis, effects: D.Effects)
    requires TableOk(e, g, evfd) && TimesOut(g, fd, other, now) && effects(0) == [E.Closed(other)]
    ensures E.PerformAll(e, effects(0)) == TableAfter(e, g, Request(fd, PING, now))
    ensures 6 in D.Run(e, [D.Reported(fd, E.EPOLLIN), D.Reported(other, E.EPOLLIN)], effects, 0).calls
  {
    var batch := [D.Reported(fd, E.EPOLLIN), D.Reported(other, E.EPOLLIN)];
    TimeoutCloses(e, g, fd, other, now);
    FirstSixChecks(e, batch, effects);
    OnlyReadBits(e.monitored[other], 0);
    assert D.Calls(e, batch, 6);
    D.ClosingHidesNothing(e, batch, effects, 6);
  }
}
