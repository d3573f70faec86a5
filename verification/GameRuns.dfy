// What every run of one game keeps, and how its handlers are runs of the server's game thread.
module GameRuns {
  import opened Options
  import opened ProtocolMessages
  import opened Rooms
  import opened Lobby
  import opened GameRules
  import opened FullBoard
  import opened GameHandlers

  // What happens to a game: its own handlers, and the lobby at the other end of its queues.
  // StaleRead is a read event of a client that was dropped before in the same batch of events, and
  // Forgotten the removal of a hung-up descriptor from the table after its handlers.
  datatype Event =
    | Arrival(now1: Millis, now2: Millis)
    | Request(fd: int, msg: ProtocolData, now: Millis)
    | HangUp(fd: int)
    | StaleRead(fd: int)
    | Forgotten(fd: int)
    | Pushed(client: Client)
    | Popped

  ghost predicate Possible(g: GameView, e: Event) {
    match e
    case Arrival(_, _) => g.io.input != []
    case Request(fd, msg, _) => g.Seated(fd) && (msg.methodName == GAME_COMMAND ==> g.Ready())
    case HangUp(_) => true
    case StaleRead(fd) => fd in g.held && !g.Seated(fd)
    case Forgotten(fd) => fd in g.held && !g.Seated(fd)
    case Pushed(client) => UniqueFds(g.io.(input := g.io.input + [client]))
    case Popped => g.io.output != []
  }

  ghost function After(g: GameView, e: Event): GameView
    requires Possible(g, e)
  {
    match e
    case Arrival(now1, now2) => Arrive(g, now1, now2).game
    case Request(fd, msg, now) => HandleMessage(g, fd, msg, now).game
    case HangUp(fd) => LoseClient(g, fd)
    case StaleRead(fd) => Throw(g)
    case Forgotten(fd) => g.(held := g.held - {fd})
    case Pushed(client) => g.(io := g.io.(input := g.io.input + [client]))
    case Popped => g.(io := g.io.(output := g.io.output[1..]))
  }

  ghost predicate IsGameRun(g: GameView, events: seq<Event>)
    decreases |events|
  {
    events == [] || (Possible(g, events[0]) && IsGameRun(After(g, events[0]), events[1..]))
  }

  ghost function GameAfter(g: GameView, events: seq<Event>): GameView
    requires IsGameRun(g, events)
    decreases |events|
  {
    if events == [] then g else GameAfter(After(g, events[0]), events[1..])
  }

  // ---- The board ----

  lemma EventBoard(g: GameView, e: Event)
    requires UniqueFds(g.io) && Possible(g, e) && Reachable(GAME_NODE_NUM, g.board)
    ensures UniqueFds(After(g, e).io) && Reachable(GAME_NODE_NUM, After(g, e).board)
  {
    match e
    case Arrival(now1, now2) => ArriveKeeps(g, now1, now2);
    case Request(fd, msg, now) =>
      MessageKeeps(g, fd, msg, now);
      MessageBoard(g, fd, msg, now);
    case _ =>
  }

  lemma MessageBoard(g: GameView, fd: int, msg: ProtocolData, now: Millis)
    requires UniqueFds(g.io) && Possible(g, Request(fd, msg, now)) && Reachable(GAME_NODE_NUM, g.board)
    ensures Reachable(GAME_NODE_NUM, HandleMessage(g, fd, msg, now).game.board)
  {
    var h := Answer(g, fd, msg);
    if h.game.board != g.board {
      var edge := EdgeNumbers(msg.GetField("add_edge"));
      Continue(GAME_NODE_NUM, g.board, Attempt(SeatedAt(g.io.thread.seat1, fd), edge.value.0, edge.value.1));
    }
    if !h.stopped {
      AnswerKeeps(g, fd, msg);
      StillSeated(g, fd, msg);
      UpdateSeenSeats(h.game, fd, now);
    }
  }

  lemma {:induction false} RunBoard(g: GameView, events: seq<Event>)
    requires UniqueFds(g.io) && IsGameRun(g, events) && Reachable(GAME_NODE_NUM, g.board)
    ensures UniqueFds(GameAfter(g, events).io) && Reachable(GAME_NODE_NUM, GameAfter(g, events).board)
    decreases |events|
  {
    if events != [] {
      EventBoard(g, events[0]);
      RunBoard(After(g, events[0]), events[1..]);
    }
  }

  // In every run of a game, over any number of rounds, the boards satisfy the invariant.
  lemma GameBoards(events: seq<Event>)
    requires IsGameRun(NEW_GAME, events)
    ensures BoardInv(GAME_NODE_NUM, GameAfter(NEW_GAME, events).board)
    ensures UniqueFds(GameAfter(NEW_GAME, events).io)
  {
    StartReachable(GAME_NODE_NUM);
    RunBoard(NEW_GAME, events);
    ReachableIffInvariant(GAME_NODE_NUM, GameAfter(NEW_GAME, events).board);
  }

  // In every run of a game, a round that fills all 15 edges leaves the one drawn shape.
  lemma GameFull(events: seq<Event>)
    requires IsGameRun(NEW_GAME, events) && Full(GameAfter(NEW_GAME, events).board)
    ensures exists x :: DrawnShape(GameAfter(NEW_GAME, events).board, x)
  {
    GameBoards(events);
    FullBoardShape(GameAfter(NEW_GAME, events).board);
  }

  // ---- Seats ----

  lemma EventReady(g: GameView, e: Event)
    requires UniqueFds(g.io) && Possible(g, e) && g.Ready()
    ensures UniqueFds(After(g, e).io) && After(g, e).Ready()
    ensures After(g, e).io.thread.running ==> g.io.thread.running
  {
    match e
    case Arrival(now1, now2) => ArriveKeeps(g, now1, now2);
    case Request(fd, msg, now) => MessageKeeps(g, fd, msg, now);
    case HangUp(fd) => LoseKeepsReady(g, fd);
    case _ =>
  }

  // Once both seats were filled, a game that is not paused has both seats occupied; and once
  // it has stopped running it never runs again.
  lemma {:induction false} OnceFilled(g: GameView, events: seq<Event>)
    requires UniqueFds(g.io) && IsGameRun(g, events) && g.Ready()
    ensures var g' := GameAfter(g, events);
      g'.Ready() && UniqueFds(g'.io) && (g'.io.thread.running ==> g.io.thread.running)
    decreases |events|
  {
    if events != [] {
      EventReady(g, events[0]);
      OnceFilled(After(g, events[0]), events[1..]);
    }
  }

  // An arrival that fills the second free seat makes the game run unpaused exactly if its descriptor
  // is new to the table and neither time check drops anybody. The stamp of the second seat may be
  // that of its former owner, which an arrival does not reset.
  lemma ArriveExact(g: GameView, now1: Millis, now2: Millis)
    requires UniqueFds(g.io) && g.io.input != [] && !g.BothSeated()
    requires g.io.thread.seat1.Some? || g.io.thread.seat2.Some?
    ensures var h := Arrive(g, now1, now2);
      h.game.BothSeated() && !h.game.paused && !h.stopped <==>
      && g.io.input[0].fd !in g.held
      && (g.seen2 == 0 || Elapsed(now1, g.seen2) <= MAX_INACTIVITY_MS)
      && (now1 == 0 || Elapsed(now2, now1) <= MAX_INACTIVITY_MS)
  {
    var fd := g.io.input[0].fd;
    if fd !in g.held {
      var known := g.(io := TakeSeat(g.io), held := g.held + {fd});
      assert UniqueFds(known.io);
      CheckBothSeats(known, now1, now2);
    }
  }

  // The first client of a new game.
  lemma FirstArrives(first: Client, rest: seq<Client>, now1: Millis, now2: Millis)
    ensures Arrive(NEW_GAME.(io := GameIO(NEW_THREAD, [first] + rest, [])), now1, now2) ==
            Handled(NEW_GAME.(io := GameIO(Thread(Some(first), None, true), rest, []), held := {first.fd}), false)
  {
    assert ([first] + rest)[1..] == rest;
    var none: set<int> := {};
    assert none + {first.fd} == {first.fd};
  }

  // So the two clients the lobby pushed to a new game are seated in order, and the game runs unpaused,
  // exactly if the two clock reads of the second arrival are not too far apart; otherwise the first
  // one is dropped at once.
  lemma GameStarts(first: Client, second: Client, clock: nat -> Millis)
    requires first.fd != second.fd
    ensures var g := ArriveAll(NEW_GAME.(io := GameIO(NEW_THREAD, [first] + [second], [])), clock, 0);
      && g.io.thread.running && g.io.input == [] && g.io.thread.seat2 == Some(second)
      && if clock(2) == 0 || Elapsed(clock(3), clock(2)) <= MAX_INACTIVITY_MS
         then g.io.thread.seat1 == Some(first) && !g.paused && g.io.output == []
         else g.io.thread.seat1 == None && g.paused && g.io.output == [GameStateChange(PAUSED, None, None)]
  {
    var g0 := NEW_GAME.(io := GameIO(NEW_THREAD, [first] + [second], []));
    var g1 := NEW_GAME.(io := GameIO(Thread(Some(first), None, true), [second], []), held := {first.fd});
    FirstArrives(first, [second], clock(0), clock(1));
    assert ArriveAll(g0, clock, 0) == ArriveAll(g1, clock, 2);
    ArriveExact(g1, clock(2), clock(3));
    CheckBothSeats(g1.(io := TakeSeat(g1.io), held := g1.held + {second.fd}), clock(2), clock(3));
    var h := Arrive(g1, clock(2), clock(3));
    assert ArriveAll(h.game, clock, 4) == h.game;
    assert ArriveAll(g1, clock, 2) == h.game;
  }

  // Of two players, the first to leave pauses the game and is reported; when the other leaves too
  // the game ends, without another report.
  lemma LeaveOneByOne(g: GameView, fd: int, other: int)
    requires UniqueFds(g.io) && g.BothSeated() && g.Seated(fd) && g.Seated(other) && fd != other
    ensures var g1 := LoseClient(g, fd);
      && g1.paused && g1.io.thread.running == g.io.thread.running && !g1.Seated(fd) && g1.Seated(other)
      && g1.io.output == g.io.output + [GameStateChange(PAUSED, None, None)]
      && var g2 := LoseClient(g1, other);
        !g2.io.thread.running && !g2.Seated(other) && g2.io.output == g1.io.output && g2.board == g.board
  {
  }

  // ---- Time ----

  // The exact condition, for every clock, under which the time check keeps the other player:
  // a clock set back by less than about 2^64 ms looks like a long silence.
  lemma ElapsedExact(now: Millis, seen: Millis)
    ensures Elapsed(now, seen) <= MAX_INACTIVITY_MS <==>
            0 <= now - seen <= MAX_INACTIVITY_MS || seen - now >= TWO_TO_THE_64 - MAX_INACTIVITY_MS
    ensures seen <= now ==> Elapsed(now, seen) == now - seen
  {
    if seen <= now {
      assert (now - seen) % TWO_TO_THE_64 == now - seen;
    } else {
      assert (now - seen) % TWO_TO_THE_64 == now - seen + TWO_TO_THE_64;
    }
  }

  // The other player's seat and stamp, as the sender sees them.
  function Other(g: GameView, fd: int): (Option<Client>, Millis) {
    if SeatedAt(g.io.thread.seat1, fd) then (g.io.thread.seat2, g.seen2) else (g.io.thread.seat1, g.seen1)
  }

  // With a clock that was not set back, the sender of a message stays seated, and the other
  // player is dropped exactly when seen before and more than 30000 ms ago.
  lemma TimeoutExact(g: GameView, fd: int, now: Millis)
    requires UniqueFds(g.io) && g.Seated(fd) && g.seen1 <= now && g.seen2 <= now
    ensures var g' := UpdateSeen(g, fd, now);
      && g'.Seated(fd)
      && g'.seen1 <= now && g'.seen2 <= now
      && (SeatedAt(g'.io.thread.seat1, fd) <==> SeatedAt(g.io.thread.seat1, fd))
      && Other(g', fd).0 == (if Other(g, fd).1 != 0 && now - Other(g, fd).1 > MAX_INACTIVITY_MS then None else Other(g, fd).0)
      && Other(g', fd).1 == Other(g, fd).1
  {
    UpdateSeenSeats(g, fd, now);
    ElapsedExact(now, g.seen1);
    ElapsedExact(now, g.seen2);
  }

  // Any step back of the clock, short of a full turn of the counter, drops a player who was seen.
  lemma ClockSetBack(g: GameView, fd: int, now: Millis)
    requires UniqueFds(g.io) && g.Seated(fd)
    requires Other(g, fd).1 > now && Other(g, fd).1 - now < TWO_TO_THE_64 - MAX_INACTIVITY_MS
    ensures Other(UpdateSeen(g, fd, now), fd).0 == None
  {
    UpdateSeenSeats(g, fd, now);
    ElapsedExact(now, Other(g, fd).1);
  }

  // The clock reads of a run never go back, starting from last.
  ghost predicate Clocked(events: seq<Event>, last: Millis)
    decreases |events|
  {
    events == [] ||
    match events[0]
    case Arrival(now1, now2) => last <= now1 <= now2 && Clocked(events[1..], now2)
    case Request(_, _, now) => last <= now && Clocked(events[1..], now)
    case _ => Clocked(events[1..], last)
  }

  function ClockAfter(e: Event, last: Millis): Millis {
    match e
    case Arrival(_, now2) => now2
    case Request(_, _, now) => now
    case _ => last
  }

  function LastClock(events: seq<Event>, last: Millis): Millis {
    if events == [] then last else LastClock(events[1..], ClockAfter(events[0], last))
  }

  lemma EventStamps(g: GameView, e: Event, last: Millis)
    requires UniqueFds(g.io) && Possible(g, e) && Clocked([e], last) && g.seen1 <= last && g.seen2 <= last
    ensures After(g, e).seen1 <= ClockAfter(e, last) && After(g, e).seen2 <= ClockAfter(e, last)
  {
    match e
    case Arrival(now1, now2) => ArrivalStamps(g, now1, now2);
    case Request(fd, msg, now) =>
      var h := Answer(g, fd, msg);
      if !h.stopped {
        StillSeated(g, fd, msg);
      }
    case _ =>
  }

  lemma ArrivalStamps(g: GameView, now1: Millis, now2: Millis)
    requires g.io.input != [] && now1 <= now2 && g.seen1 <= now1 && g.seen2 <= now1
    ensures var g' := Arrive(g, now1, now2).game; g'.seen1 <= now2 && g'.seen2 <= now2
  {
  }

  // In a run whose clock never goes back no stamp lies in the future, so no time check wraps around.
  lemma {:induction false} StampsInPast(g: GameView, events: seq<Event>, last: Millis)
    requires UniqueFds(g.io) && IsGameRun(g, events) && Reachable(GAME_NODE_NUM, g.board)
    requires Clocked(events, last) && g.seen1 <= last && g.seen2 <= last
    ensures GameAfter(g, events).seen1 <= LastClock(events, last) && GameAfter(g, events).seen2 <= LastClock(events, last)
    decreases |events|
  {
    if events != [] {
      assert Clocked([events[0]], last);
      EventStamps(g, events[0], last);
      EventBoard(g, events[0]);
      StampsInPast(After(g, events[0]), events[1..], ClockAfter(events[0], last));
    }
  }

  // ---- Which commands the game accepts ----

  predicate NodeDigit(c: char) {
    '0' <= c <= '5'
  }

  function Digit(c: char): nat
    requires NodeDigit(c)
  {
    c as int - '0' as int
  }

  // The sender is on turn in a game that is not paused, and names a free edge of the six nodes.
  predicate GoodCommand(g: GameView, fd: int, msg: ProtocolData) {
    && !g.paused && (SeatedAt(g.io.thread.seat1, fd) <==> g.board.playerOneTurn)
    && msg.HasField("add_edge") && |msg.GetField("add_edge")| >= 4
    && var edge := msg.GetField("add_edge");
      && NodeDigit(edge[1]) && NodeDigit(edge[3]) && edge[1] != edge[3]
      && (Digit(edge[1]), Digit(edge[3])) !in g.board.one && (Digit(edge[1]), Digit(edge[3])) !in g.board.two
  }

  lemma StoiDigit(c: char)
    ensures Stoi([c]) == if IsDigit(c) then Some(c as int - '0' as int) else None
  {
    assert [c][1..] == "";
    if IsDigit(c) {
      assert DigitsPrefix([c][1..], c as int - '0' as int) == c as int - '0' as int;
    }
  }

  // A command moves the board exactly when it is good, and then it plays the edge of its two
  // digits; a text too short to cut stops the game; every other command counts as a denied request.
  lemma CommandCharacterised(g: GameView, fd: int, msg: ProtocolData)
    requires UniqueFds(g.io) && g.Seated(fd) && g.Ready()
    ensures var h := GameCommand(g, fd, msg);
      if GoodCommand(g, fd, msg) then
        var edge := msg.GetField("add_edge");
        var a := Attempt(g.board.playerOneTurn, Digit(edge[1]), Digit(edge[3]));
        h == Handled(g.(board := Play(GAME_NODE_NUM, g.board, a)), false) && Accepted(GAME_NODE_NUM, g.board, a)
      else if !g.paused && (SeatedAt(g.io.thread.seat1, fd) <==> g.board.playerOneTurn)
              && msg.HasField("add_edge") && |msg.GetField("add_edge")| < 3 then
        h == Handled(Throw(g), true)
      else
        h == DenyPlayer(g, fd)
  {
    if msg.HasField("add_edge") && |msg.GetField("add_edge")| >= 3 {
      var edge := msg.GetField("add_edge");
      assert edge[1..2] == [edge[1]];
      StoiDigit(edge[1]);
      if |edge| >= 4 {
        assert edge[3..4] == [edge[3]];
        StoiDigit(edge[3]);
      } else {
        assert edge[3..3] == "";
      }
    }
  }
}
