// What each message does to a game: whose turn follows, who is denied or lost, and what ends the game.
module GamePlay {
  import opened Options
  import opened ProtocolMessages
  import opened Rooms
  import opened GameRules
  import opened GameHandlers
  import opened GameRuns
  import opened GameWatch

  // ---- One message ----

  // Denied requests: unknown methods, and commands that are neither good nor cut short.
  predicate Denies(g: GameView, fd: int, msg: ProtocolData) {
    match msg.methodName
    case GAME_LEAVE => false
    case GAME_PING => false
    case GAME_COMMAND => !GoodCommand(g, fd, msg) && !CutsShort(g, fd, msg)
    case _ => true
  }

  // The sixth denied request.
  predicate TooMany(g: GameView, fd: int, msg: ProtocolData)
    requires g.Seated(fd)
  {
    Denies(g, fd, msg) && DeniedCount(g.io, fd) >= 5
  }

  // A message with an effect on the board, and the move it makes.
  predicate Moves(g: GameView, fd: int, msg: ProtocolData) {
    msg.methodName == GAME_COMMAND && GoodCommand(g, fd, msg)
  }

  function MoveOf(g: GameView, fd: int, msg: ProtocolData): Attempt
    requires Moves(g, fd, msg)
  {
    var edge := msg.GetField("add_edge");
    Attempt(SeatedAt(g.io.thread.seat1, fd), Digit(edge[1]), Digit(edge[3]))
  }

  // The sender's seat and stamp, beside Other.
  function Own(g: GameView, fd: int): (Option<Client>, Millis) {
    if SeatedAt(g.io.thread.seat1, fd) then (g.io.thread.seat1, g.seen1) else (g.io.thread.seat2, g.seen2)
  }

  predicate Silent(g: GameView, fd: int, now: Millis) {
    Other(g, fd).0.Some? && Other(g, fd).1 != 0 && Elapsed(now, Other(g, fd).1) > 30000
  }

  // The game before the time check.
  lemma AnswerExact(g: GameView, fd: int, msg: ProtocolData)
    requires UniqueFds(g.io) && Possible(g, Request(fd, msg, 0))
    ensures Answer(g, fd, msg) ==
            if CutsShort(g, fd, msg) then Handled(Throw(g), true)
            else if TooMany(g, fd, msg) then Handled(LoseClient(g, fd), true)
            else if Denies(g, fd, msg) then Handled(g.(io := RefuseSeat(g.io, fd)), false)
            else if Moves(g, fd, msg) then Handled(g.(board := Play(GAME_NODE_NUM, g.board, MoveOf(g, fd, msg))), false)
            else if msg.methodName == GAME_LEAVE then Handled(g.(io := StopGame(g.io)), false)
            else Handled(g, false)
  {
    if msg.methodName == GAME_COMMAND { CommandCharacterised(g, fd, msg); }
  }

  const PAUSE: GameStateChange := GameStateChange(PAUSED, None, None)

  // What an event that loses the client of one seat leaves of the game and of the other seat.
  ghost predicate LeftOne(g: GameView, fd: int, g': GameView) {
    && !g'.Seated(fd) && (forall f :: f != fd ==> (g'.Seated(f) <==> g.Seated(f)))
    && g'.board == g.board && g'.held == g.held && g'.io.input == g.io.input
    && if g'.io.thread.seat1.None? && g'.io.thread.seat2.None?
       then !g'.io.thread.running && g'.paused == g.paused && g'.io.output == g.io.output
       else g'.io.thread.running == g.io.thread.running && g'.paused && g'.io.output == g.io.output + [PAUSE]
  }

  lemma LoseLeaves(g: GameView, fd: int)
    requires UniqueFds(g.io)
    ensures LeftOne(g, fd, LoseClient(g, fd))
  {
  }

  // A message that is answered keeps its sender seated.
  ghost predicate Answered(g: GameView, fd: int, msg: ProtocolData, now: Millis, g': GameView)
    requires g.Seated(fd)
  {
    var silent, client := Silent(g, fd, now), Own(g, fd).0.value;
    && (SeatedAt(g'.io.thread.seat1, fd) <==> SeatedAt(g.io.thread.seat1, fd))
    && Own(g', fd) == (Some(client.(denied := client.denied + if Denies(g, fd, msg) then 1 else 0)), now)
    && Other(g', fd) == (if silent then None else Other(g, fd).0, Other(g, fd).1)
    && g'.board == (if Moves(g, fd, msg) then Play(GAME_NODE_NUM, g.board, MoveOf(g, fd, msg)) else g.board)
    && g'.io.thread.running == (g.io.thread.running && msg.methodName != GAME_LEAVE)
    && g'.paused == (g.paused || silent) && g'.io.output == g.io.output + (if silent then [PAUSE] else [])
    && g'.io.input == g.io.input && g'.held == g.held
  }

  // The same before the time check.
  ghost predicate Told(g: GameView, fd: int, msg: ProtocolData, g': GameView)
    requires g.Seated(fd)
  {
    var client := Own(g, fd).0.value;
    && (SeatedAt(g'.io.thread.seat1, fd) <==> SeatedAt(g.io.thread.seat1, fd))
    && Own(g', fd).0 == Some(client.(denied := client.denied + if Denies(g, fd, msg) then 1 else 0))
    && Other(g', fd) == Other(g, fd)
    && g'.board == (if Moves(g, fd, msg) then Play(GAME_NODE_NUM, g.board, MoveOf(g, fd, msg)) else g.board)
    && g'.io.thread.running == (g.io.thread.running && msg.methodName != GAME_LEAVE)
    && g'.paused == g.paused && g'.io.output == g.io.output && g'.io.input == g.io.input && g'.held == g.held
  }

  lemma AnswerTells(g: GameView, fd: int, msg: ProtocolData)
    requires UniqueFds(g.io) && Possible(g, Request(fd, msg, 0))
    ensures Answer(g, fd, msg).stopped <==> CutsShort(g, fd, msg) || TooMany(g, fd, msg)
    ensures !Answer(g, fd, msg).stopped ==> Told(g, fd, msg, Answer(g, fd, msg).game)
  {
    AnswerExact(g, fd, msg);
  }

  lemma CheckExact(g: GameView, fd: int, now: Millis)
    requires UniqueFds(g.io) && g.Seated(fd)
    ensures var g', silent := UpdateSeen(g, fd, now), Silent(g, fd, now);
      && (SeatedAt(g'.io.thread.seat1, fd) <==> SeatedAt(g.io.thread.seat1, fd))
      && Own(g', fd) == (Own(g, fd).0, now) && Other(g', fd) == (if silent then None else Other(g, fd).0, Other(g, fd).1)
      && g'.paused == (g.paused || silent) && g'.io.output == g.io.output + (if silent then [PAUSE] else [])
      && g'.board == g.board && g'.io.thread.running == g.io.thread.running && g'.io.input == g.io.input && g'.held == g.held
  {
    assert Elapsed(now, now) == 0;
    assert g.io.output + [] == g.io.output;
    UpdateSeenSeats(g, fd, now);
  }

  lemma TellAndCheck(g: GameView, fd: int, msg: ProtocolData, now: Millis, told: GameView)
    requires UniqueFds(g.io) && UniqueFds(told.io) && g.Seated(fd) && told.Seated(fd) && Told(g, fd, msg, told)
    ensures Answered(g, fd, msg, now, UpdateSeen(told, fd, now))
  {
    CheckExact(told, fd, now);
  }

  // Every message: one cut short throws, the sixth denied request loses its sender, and every other
  // is answered and drops the other player iff seen before and silent for too long.
  lemma RequestExact(g: GameView, fd: int, msg: ProtocolData, now: Millis)
    requires UniqueFds(g.io) && Possible(g, Request(fd, msg, now))
    ensures var h := HandleMessage(g, fd, msg, now);
      && (h.stopped <==> CutsShort(g, fd, msg) || TooMany(g, fd, msg))
      && if CutsShort(g, fd, msg) then h.game == g.(io := g.io.(thread := g.io.thread.(running := false)))
         else if TooMany(g, fd, msg) then LeftOne(g, fd, h.game)
         else Answered(g, fd, msg, now, h.game)
  {
    AnswerTells(g, fd, msg);
    var h := Answer(g, fd, msg);
    if h.stopped {
      AnswerExact(g, fd, msg);
      LoseLeaves(g, fd);
    } else {
      AnswerKeeps(g, fd, msg);
      StillSeated(g, fd, msg);
      TellAndCheck(g, fd, msg, now, h.game);
    }
  }

  // ---- Whose turn it is, over every run ----

  predicate IsMove(g: GameView, e: Event) {
    e.Request? && Moves(g, e.fd, e.msg)
  }

  lemma EventMoves(g: GameView, e: Event)
    requires UniqueFds(g.io) && Possible(g, e)
    ensures UniqueFds(After(g, e).io)
    ensures After(g, e).board == if IsMove(g, e) then Play(GAME_NODE_NUM, g.board, MoveOf(g, e.fd, e.msg)) else g.board
    ensures IsMove(g, e) ==> Accepted(GAME_NODE_NUM, g.board, MoveOf(g, e.fd, e.msg))
  {
    match e
    case Arrival(now1, now2) => ArriveKeeps(g, now1, now2);
    case Request(fd, msg, now) =>
      MessageKeeps(g, fd, msg, now);
      RequestExact(g, fd, msg, now);
      if Moves(g, fd, msg) { CommandCharacterised(g, fd, msg); }
    case _ =>
  }

  // The accepted commands of a run, one behind the other.
  ghost function MovesOf(g: GameView, events: seq<Event>): seq<Attempt>
    requires IsGameRun(g, events)
    decreases |events|
  {
    if events == [] then []
    else (if IsMove(g, events[0]) then [MoveOf(g, events[0].fd, events[0].msg)] else []) + MovesOf(After(g, events[0]), events[1..])
  }

  // The commands of a list, all of them accepted, played one after the other.
  ghost predicate PlaysTo(n: nat, b: Board, moves: seq<Attempt>, b': Board)
    decreases |moves|
  {
    if moves == [] then b == b'
    else Accepted(n, b, moves[0]) && PlaysTo(n, Play(n, b, moves[0]), moves[1..], b')
  }

  lemma {:induction false} RunMoves(g: GameView, events: seq<Event>)
    requires UniqueFds(g.io) && IsGameRun(g, events)
    ensures PlaysTo(GAME_NODE_NUM, g.board, MovesOf(g, events), GameAfter(g, events).board)
    decreases |events|
  {
    if events != [] {
      var rest := MovesOf(After(g, events[0]), events[1..]);
      EventMoves(g, events[0]);
      RunMoves(After(g, events[0]), events[1..]);
      if IsMove(g, events[0]) {
        var move := MoveOf(g, events[0].fd, events[0].msg);
        assert ([move] + rest)[1..] == rest;
      } else {
        assert [] + rest == rest;
      }
    }
  }

  lemma {:induction false} PlayedTurns(n: nat, b: Board, moves: seq<Attempt>, b': Board)
    requires PlaysTo(n, b, moves, b')
    ensures b'.playerOneTurn == b.playerOneTurn <==> |moves| % 2 == 0
    ensures forall i :: 0 <= i < |moves| ==> (moves[i].byOne == b.playerOneTurn <==> i % 2 == 0)
    decreases |moves|
  {
    if moves != [] {
      PlayedTurns(n, Play(n, b, moves[0]), moves[1..], b');
      forall i | 0 < i < |moves|
        ensures moves[i].byOne == b.playerOneTurn <==> i % 2 == 0
      {
        assert moves[i] == moves[1..][i - 1];
      }
    }
  }

  // In every run of a game, over all its rounds, disconnects and arrivals, the first seat makes the
  // first accepted command and then every other one, and its turn is next after an even number of them.
  lemma GameTurns(events: seq<Event>)
    requires IsGameRun(NEW_GAME, events)
    ensures var moves := MovesOf(NEW_GAME, events);
      && (GameAfter(NEW_GAME, events).board.playerOneTurn <==> |moves| % 2 == 0)
      && forall i :: 0 <= i < |moves| ==> (moves[i].byOne <==> i % 2 == 0)
  {
    RunMoves(NEW_GAME, events);
    PlayedTurns(GAME_NODE_NUM, NEW_GAME.board, MovesOf(NEW_GAME, events), GameAfter(NEW_GAME, events).board);
  }

  // The loser of a round is not on turn in the next one, whose boards are empty.
  lemma LoserOpensNot(g: GameView, fd: int, msg: ProtocolData, now: Millis)
    requires UniqueFds(g.io) && Possible(g, Request(fd, msg, now)) && Moves(g, fd, msg)
    requires Loses(g.board, MoveOf(g, fd, msg))
    ensures After(g, Request(fd, msg, now)).board == Board({}, {}, !SeatedAt(g.io.thread.seat1, fd))
  {
    EventMoves(g, Request(fd, msg, now));
    LoserWaits(GAME_NODE_NUM, g.board, MoveOf(g, fd, msg));
  }

  // ---- What ends a game ----

  predicate NobodySeated(g: GameView) {
    g.io.thread.seat1.None? && g.io.thread.seat2.None?
  }

  lemma ArrivalRuns(g: GameView, now1: Millis, now2: Millis)
    requires UniqueFds(g.io) && Possible(g, Arrival(now1, now2))
    ensures After(g, Arrival(now1, now2)).io.thread.running <==> g.io.thread.running && !Throws(g, Arrival(now1, now2))
  {
    if !Throws(g, Arrival(now1, now2)) {
      ArrivalLoses(g, now1, now2);
      if Known(g).BothSeated() { CheckBothSeats(Known(g), now1, now2); }
    }
  }

  // Where an arrival that throws leaves its client: a third player in the queue, and one whose
  // descriptor is still held in a seat, from which the last report returns it.
  lemma ThrownArrival(g: GameView, now1: Millis, now2: Millis)
    requires UniqueFds(g.io) && Possible(g, Arrival(now1, now2)) && Throws(g, Arrival(now1, now2))
    ensures var g', client := After(g, Arrival(now1, now2)), g.io.input[0];
      && !g'.io.thread.running && g'.io.output == g.io.output && g'.held == g.held && g'.paused == g.paused
      && if g.BothSeated() then g'.io.input == g.io.input && !g'.Seated(client.fd)
         else g'.io.input == g.io.input[1..] && Own(g', client.fd).0 == Some(client)
  {
  }

  // A running game goes on exactly if the event does not throw, is no GAME_LEAVE, and is no message or
  // hang-up that leaves both seats empty.
  lemma StopsIff(g: GameView, e: Event)
    requires UniqueFds(g.io) && Possible(g, e)
    ensures After(g, e).io.thread.running <==>
            && g.io.thread.running && !Throws(g, e)
            && !(e.Request? && e.msg.methodName == GAME_LEAVE)
            && !((e.Request? || e.HangUp?) && NobodySeated(After(g, e)))
  {
    match e
    case Arrival(now1, now2) => ArrivalRuns(g, now1, now2);
    case Request(fd, msg, now) => RequestExact(g, fd, msg, now);
    case HangUp(fd) => LoseLeaves(g, fd);
    case _ =>
  }

  // ---- Batches ----

  // The game after the first k messages of a batch, and whether its rest is not handled.
  ghost function BatchState(g: GameView, fd: int, msgs: seq<ProtocolData>, clock: nat -> Millis, k: nat): (h: Handled)
    requires k <= |msgs| && UniqueFds(g.io) && g.Seated(fd) && Defined(g, msgs)
    ensures !h.stopped ==> UniqueFds(h.game.io) && h.game.Seated(fd) && Defined(h.game, msgs[k..])
    decreases k
  {
    if k == 0 then Handled(g, false)
    else
      var before := BatchState(g, fd, msgs, clock, k - 1);
      if before.stopped then before
      else
        BatchStep(before.game, fd, msgs, clock, k - 1);
        HandleMessage(before.game, fd, msgs[k - 1], clock(k - 1))
  }

  lemma BatchFrom(g: GameView, fd: int, msgs: seq<ProtocolData>, clock: nat -> Millis, k: nat)
    requires k <= |msgs| && UniqueFds(g.io) && g.Seated(fd) && Defined(g, msgs)
    ensures var h := BatchState(g, fd, msgs, clock, k);
      HandleBatch(g, fd, msgs, clock, 0) == if h.stopped then h.game else HandleBatch(h.game, fd, msgs[k..], clock, k)
    decreases k
  {
    if k > 0 {
      BatchFrom(g, fd, msgs, clock, k - 1);
      var before := BatchState(g, fd, msgs, clock, k - 1);
      if !before.stopped { BatchStep(before.game, fd, msgs, clock, k - 1); }
    } else {
      assert msgs[0..] == msgs;
    }
  }

  // The k-th message is handled, and it ends the game.
  ghost predicate EndsAt(g: GameView, fd: int, msgs: seq<ProtocolData>, clock: nat -> Millis, k: nat)
    requires k < |msgs| && UniqueFds(g.io) && g.Seated(fd) && Defined(g, msgs)
  {
    var h := BatchState(g, fd, msgs, clock, k);
    !h.stopped &&
    (|| msgs[k].methodName == GAME_LEAVE || CutsShort(h.game, fd, msgs[k])
     || NobodySeated(BatchState(g, fd, msgs, clock, k + 1).game))
  }

  lemma OneRuns(g: GameView, fd: int, msgs: seq<ProtocolData>, clock: nat -> Millis, k: nat, next: nat)
    requires k < |msgs| && next == k + 1 && UniqueFds(g.io) && g.Seated(fd) && Defined(g, msgs)
    ensures var h, h' := BatchState(g, fd, msgs, clock, k), BatchState(g, fd, msgs, clock, next);
      h'.game.io.thread.running <==> h.game.io.thread.running && !EndsAt(g, fd, msgs, clock, k)
  {
    var h := BatchState(g, fd, msgs, clock, k);
    if !h.stopped {
      BatchStep(h.game, fd, msgs, clock, k);
      StopsIff(h.game, Request(fd, msgs[k], clock(k)));
    }
  }

  ghost predicate NoneEnds(g: GameView, fd: int, msgs: seq<ProtocolData>, clock: nat -> Millis, k: nat)
    requires k <= |msgs| && UniqueFds(g.io) && g.Seated(fd) && Defined(g, msgs)
  {
    forall i :: 0 <= i < k ==> !EndsAt(g, fd, msgs, clock, i)
  }

  lemma OneMoreEnds(g: GameView, fd: int, msgs: seq<ProtocolData>, clock: nat -> Millis, k: nat, next: nat)
    requires k < |msgs| && next == k + 1 && UniqueFds(g.io) && g.Seated(fd) && Defined(g, msgs)
    ensures NoneEnds(g, fd, msgs, clock, next) <==> NoneEnds(g, fd, msgs, clock, k) && !EndsAt(g, fd, msgs, clock, k)
  {
  }

  lemma {:induction false} StateRuns(g: GameView, fd: int, msgs: seq<ProtocolData>, clock: nat -> Millis, k: nat)
    requires k <= |msgs| && UniqueFds(g.io) && g.Seated(fd) && Defined(g, msgs)
    ensures BatchState(g, fd, msgs, clock, k).game.io.thread.running <==>
            g.io.thread.running && NoneEnds(g, fd, msgs, clock, k)
    decreases k
  {
    if k > 0 {
      var last: nat := k - 1;
      StateRuns(g, fd, msgs, clock, last);
      OneRuns(g, fd, msgs, clock, last, k);
      OneMoreEnds(g, fd, msgs, clock, last, k);
    }
  }

  // A batch ends a running game exactly if one of its handled messages is a GAME_LEAVE, is cut short,
  // or leaves both seats empty; a message is handled unless one before it lost the sender or threw.
  lemma BatchStopsIff(g: GameView, fd: int, msgs: seq<ProtocolData>, clock: nat -> Millis)
    requires UniqueFds(g.io) && g.Seated(fd) && Defined(g, msgs)
    ensures HandleWrite(g, fd, Some(msgs), clock).io.thread.running <==>
            g.io.thread.running && NoneEnds(g, fd, msgs, clock, |msgs|)
  {
    BatchFrom(g, fd, msgs, clock, |msgs|);
    StateRuns(g, fd, msgs, clock, |msgs|);
  }

  // A batch is handled message by message, up to and with the first that loses the sender or throws.
  lemma BatchHandles(g: GameView, fd: int, msgs: seq<ProtocolData>, clock: nat -> Millis, k: nat)
    requires k < |msgs| && UniqueFds(g.io) && g.Seated(fd) && Defined(g, msgs)
    ensures var h, h' := BatchState(g, fd, msgs, clock, k), BatchState(g, fd, msgs, clock, k + 1);
      if h.stopped then h' == h
      else Possible(h.game, Request(fd, msgs[k], clock(k))) && h'.game == After(h.game, Request(fd, msgs[k], clock(k)))
           && (h'.stopped <==> CutsShort(h.game, fd, msgs[k]) || TooMany(h.game, fd, msgs[k]))
    ensures HandleWrite(g, fd, Some(msgs), clock) == BatchState(g, fd, msgs, clock, |msgs|).game
  {
    BatchFrom(g, fd, msgs, clock, |msgs|);
    var h := BatchState(g, fd, msgs, clock, k);
    if !h.stopped {
      BatchStep(h.game, fd, msgs, clock, k);
      RequestExact(h.game, fd, msgs[k], clock(k));
    }
  }

  // ---- Who is lost ----

  // An exception of the parser loses just the sender.
  lemma ParserErrorLoses(g: GameView, fd: int, clock: nat -> Millis)
    requires UniqueFds(g.io) && g.Seated(fd)
    ensures LeftOne(g, fd, HandleWrite(g, fd, None, clock))
  {
    LoseLeaves(g, fd);
  }

  // A hang-up of a client dropped before, in the same batch of events, pauses a game of two players again.
  lemma StrangerPauses(g: GameView, fd: int)
    requires UniqueFds(g.io) && g.BothSeated() && !g.Seated(fd)
    ensures LoseClient(g, fd) == g.(paused := true, io := g.io.(output := g.io.output + [PAUSE]))
  {
  }

  ghost function DenyTimes(g: GameView, fd: int, times: nat): GameView
    decreases times
  {
    if times == 0 || !g.Seated(fd) then g else DenyTimes(DenyPlayer(g, fd).game, fd, times - 1)
  }

  // Of a new player's denied requests the first five are counted and the sixth loses the player.
  lemma {:induction false} DenialsLose(g: GameView, fd: int, times: nat)
    requires UniqueFds(g.io) && g.Seated(fd) && DeniedCount(g.io, fd) <= 5
    ensures var g' := DenyTimes(g, fd, times);
      && (g'.Seated(fd) <==> DeniedCount(g.io, fd) + times <= 5)
      && (g'.Seated(fd) ==> DeniedCount(g'.io, fd) == DeniedCount(g.io, fd) + times)
    decreases times
  {
    if times > 0 {
      LoseLeaves(g, fd);
      if DeniedCount(g.io, fd) < 5 { DenialsLose(DenyPlayer(g, fd).game, fd, times - 1); }
    }
  }
}
