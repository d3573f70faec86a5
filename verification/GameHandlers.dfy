// The handlers of src/game_logic/game_room/Game.cpp as functions of the game's state.
module GameHandlers {
  import opened Options
  import opened ProtocolMessages
  import opened Rooms
  import opened Lobby
  import opened GameRules

  const TWO_TO_THE_64: nat := 0x1_0000_0000_0000_0000

  // uint64_t milliseconds of the system clock, which may also be set back.
  type Millis = t: nat | t < TWO_TO_THE_64

  const MAX_INACTIVITY_MS: nat := 30000

  // held is what the game's epoll table holds besides the eventfd of its input queue.
  datatype GameView = GameView(board: Board, io: GameIO, paused: bool, seen1: Millis, seen2: Millis, held: set<int>) {
    predicate Seated(fd: int) { SeatedAt(io.thread.seat1, fd) || SeatedAt(io.thread.seat2, fd) }

    predicate BothSeated() { io.thread.seat1.Some? && io.thread.seat2.Some? }

    // The state in which a GAME_COMMAND has a defined meaning.
    predicate Ready() { paused || BothSeated() }
  }

  const NEW_GAME: GameView := GameView(InitBoard(true), GameIO(NEW_THREAD, [], []), false, 0, 0, {})

  // What a handler leaves behind; stopped means that the rest of its batch is not handled,
  // because the sender is gone or an exception was thrown.
  datatype Handled = Handled(game: GameView, stopped: bool)

  // An exception that leaves the event loop.
  function Throw(g: GameView): GameView {
    g.(io := StopGame(g.io))
  }

  // _onClientDisconnect, which does not touch the table.
  function LoseClient(g: GameView, fd: int): GameView {
    var io := LeaveSeat(g.io, fd);
    g.(io := io, paused := g.paused || io.thread.seat1.Some? || io.thread.seat2.Some?)
  }

  // The requests the seated client was denied so far.
  function DeniedCount(io: GameIO, fd: int): nat
    requires SeatedAt(io.thread.seat1, fd) || SeatedAt(io.thread.seat2, fd)
  {
    if SeatedAt(io.thread.seat1, fd) then io.thread.seat1.value.denied else io.thread.seat2.value.denied
  }

  // _denyRequest
  function DenyPlayer(g: GameView, fd: int): Handled
    requires g.Seated(fd)
  {
    if DeniedCount(g.io, fd) >= MAX_REQ_DENIED_CNT then Handled(LoseClient(g, fd), true)
    else Handled(g.(io := RefuseSeat(g.io, fd)), false)
  }

  // The two numbers of an edge text like {1,2}, read by position; None where std::stoi throws.
  function EdgeNumbers(edge: string): Option<(nat, nat)>
    requires |edge| >= 3
  {
    var source := Stoi(edge[1..2]);
    var destination := Stoi(edge[3..if |edge| == 3 then 3 else 4]);
    if source.Some? && destination.Some? && source.value >= 0 && destination.value >= 0
    then Some((source.value, destination.value)) else None
  }

  // _processGameCommand; an edge text of less than three characters makes substr throw.
  ghost function GameCommand(g: GameView, fd: int, msg: ProtocolData): Handled
    requires g.Seated(fd) && g.Ready()
  {
    if g.paused then DenyPlayer(g, fd)
    else
      var byOne := SeatedAt(g.io.thread.seat1, fd);
      if byOne != g.board.playerOneTurn || !msg.HasField("add_edge") then DenyPlayer(g, fd)
      else if |msg.GetField("add_edge")| < 3 then Handled(Throw(g), true)
      else
        var edge := EdgeNumbers(msg.GetField("add_edge"));
        if edge.None? || !Accepted(GAME_NODE_NUM, g.board, Attempt(byOne, edge.value.0, edge.value.1))
        then DenyPlayer(g, fd)
        else Handled(g.(board := Play(GAME_NODE_NUM, g.board, Attempt(byOne, edge.value.0, edge.value.1))), false)
  }

  // Unsigned subtraction of two time stamps.
  function Elapsed(now: Millis, seen: Millis): Millis {
    (now - seen) % TWO_TO_THE_64
  }

  function MarkSeen(g: GameView, fd: int, now: Millis): GameView {
    if SeatedAt(g.io.thread.seat1, fd) then g.(seen1 := now) else g.(seen2 := now)
  }

  function DropIfSilent(g: GameView, seat: Option<Client>, seen: Millis, now: Millis): GameView {
    if seen != 0 && Elapsed(now, seen) > MAX_INACTIVITY_MS && seat.Some? then LoseClient(g, seat.value.fd) else g
  }

  // _updateClientLastSeen
  function UpdateSeen(g: GameView, fd: int, now: Millis): GameView
    requires g.Seated(fd)
  {
    var g0 := MarkSeen(g, fd, now);
    var g1 := DropIfSilent(g0, g0.io.thread.seat1, g0.seen1, now);
    DropIfSilent(g1, g1.io.thread.seat2, g1.seen2, now)
  }

  // _processClientMessage up to the time check
  ghost function Answer(g: GameView, fd: int, msg: ProtocolData): Handled
    requires g.Seated(fd) && (msg.methodName == GAME_COMMAND ==> g.Ready())
  {
    match msg.methodName
    case GAME_COMMAND => GameCommand(g, fd, msg)
    case GAME_LEAVE => Handled(g.(io := StopGame(g.io)), false)
    case GAME_PING => Handled(g, false)
    case _ => DenyPlayer(g, fd)
  }

  lemma StillSeated(g: GameView, fd: int, msg: ProtocolData)
    requires g.Seated(fd) && (msg.methodName == GAME_COMMAND ==> g.Ready())
    ensures var h := Answer(g, fd, msg); !h.stopped ==> h.game.Seated(fd)
  {
  }

  // _processClientMessage
  ghost function HandleMessage(g: GameView, fd: int, msg: ProtocolData, now: Millis): Handled
    requires g.Seated(fd) && (msg.methodName == GAME_COMMAND ==> g.Ready())
  {
    StillSeated(g, fd, msg);
    var h := Answer(g, fd, msg);
    if h.stopped then h else Handled(UpdateSeen(h.game, fd, now), false)
  }

  // The two time checks once both seats are filled; should the first of them drop the second
  // player, the code goes on with a destroyed client.
  function CheckBoth(g: GameView, now1: Millis, now2: Millis): Handled
    requires g.BothSeated()
  {
    var first := UpdateSeen(g.(paused := false), g.io.thread.seat1.value.fd, now1);
    if first.io.thread.seat2.None? then Handled(first, true)
    else Handled(UpdateSeen(first, first.io.thread.seat2.value.fd, now2), false)
  }

  // One round of the loop of _onNewClientConnect: a third player makes it throw, and so does a
  // descriptor that the table still holds, as the kernel forgot it when it was closed.
  function Arrive(g: GameView, now1: Millis, now2: Millis): Handled
    requires g.io.input != []
  {
    var fd := g.io.input[0].fd;
    var sat := g.(io := TakeSeat(g.io));
    if g.BothSeated() then Handled(sat, true)
    else if fd in g.held then Handled(Throw(sat), true)
    else
      var known := sat.(held := g.held + {fd});
      if known.BothSeated() then CheckBoth(known, now1, now2) else Handled(known, false)
  }

  // ---- Whole handlers, and the events of a game ----

  // _onNewClientConnect: reads of the clock are numbered.
  function ArriveAll(g: GameView, clock: nat -> Millis, k: nat): GameView
    decreases |g.io.input|
  {
    if g.io.input == [] then g
    else
      var h := Arrive(g, clock(k), clock(k + 1));
      if h.stopped then h.game else ArriveAll(h.game, clock, k + 2)
  }

  // No two connections of the game have the same descriptor.
  ghost predicate UniqueFds(io: GameIO) {
    && (forall i, j :: 0 <= i < j < |io.input| ==> io.input[i].fd != io.input[j].fd)
    && (forall i :: 0 <= i < |io.input| ==> !SeatedAt(io.thread.seat1, io.input[i].fd) && !SeatedAt(io.thread.seat2, io.input[i].fd))
    && (io.thread.seat1.Some? && io.thread.seat2.Some? ==> io.thread.seat1.value.fd != io.thread.seat2.value.fd)
  }

  lemma LoseKeepsReady(g: GameView, fd: int)
    requires UniqueFds(g.io) && g.Ready()
    ensures LoseClient(g, fd).Ready() && UniqueFds(LoseClient(g, fd).io)
    ensures LoseClient(g, fd).io.thread.running ==> g.io.thread.running
  {
  }

  // Who is seated after the time check: the sender, now with the time of this message, and the other
  // player unless silent for too long.
  lemma UpdateSeenSeats(g: GameView, fd: int, now: Millis)
    requires UniqueFds(g.io) && g.Seated(fd)
    ensures var g' := UpdateSeen(g, fd, now);
      var t, t' := g.io.thread, g'.io.thread;
      if SeatedAt(t.seat1, fd) then
        && t'.seat1 == t.seat1 && g'.seen1 == now && g'.seen2 == g.seen2
        && t'.seat2 == (if g.seen2 != 0 && Elapsed(now, g.seen2) > MAX_INACTIVITY_MS then None else t.seat2)
      else
        && t'.seat2 == t.seat2 && g'.seen2 == now && g'.seen1 == g.seen1
        && t'.seat1 == (if g.seen1 != 0 && Elapsed(now, g.seen1) > MAX_INACTIVITY_MS then None else t.seat1)
    ensures var g' := UpdateSeen(g, fd, now);
      && g'.board == g.board && g'.held == g.held && g'.io.input == g.io.input && g'.io.thread.running == g.io.thread.running
      && UniqueFds(g'.io) && (g.Ready() ==> g'.Ready())
  {
    assert Elapsed(now, now) == 0;
  }

  lemma AnswerKeeps(g: GameView, fd: int, msg: ProtocolData)
    requires UniqueFds(g.io) && g.Seated(fd) && (msg.methodName == GAME_COMMAND ==> g.Ready())
    ensures var h := Answer(g, fd, msg);
      UniqueFds(h.game.io) && (g.Ready() ==> h.game.Ready()) && (h.game.io.thread.running ==> g.io.thread.running)
  {
  }

  lemma MessageKeeps(g: GameView, fd: int, msg: ProtocolData, now: Millis)
    requires UniqueFds(g.io) && g.Seated(fd) && (msg.methodName == GAME_COMMAND ==> g.Ready())
    ensures var h := HandleMessage(g, fd, msg, now);
      UniqueFds(h.game.io) && (g.Ready() ==> h.game.Ready()) && (!h.stopped ==> h.game.Seated(fd))
      && (h.game.io.thread.running ==> g.io.thread.running)
  {
    AnswerKeeps(g, fd, msg);
    var h := Answer(g, fd, msg);
    if !h.stopped {
      StillSeated(g, fd, msg);
      UpdateSeenSeats(h.game, fd, now);
    }
  }

  // The first check may drop the second player and the second check the first one.
  lemma CheckBothSeats(g: GameView, now1: Millis, now2: Millis)
    requires UniqueFds(g.io) && g.BothSeated()
    ensures var h := CheckBoth(g, now1, now2);
      var t, t' := g.io.thread, h.game.io.thread;
      var first := now1 == 0 || Elapsed(now2, now1) <= MAX_INACTIVITY_MS;
      var second := g.seen2 == 0 || Elapsed(now1, g.seen2) <= MAX_INACTIVITY_MS;
      && h.stopped == !second
      && t' == Thread(if second && !first then None else t.seat1, if second then t.seat2 else None, t.running)
      && h.game.paused == !(first && second)
      && h.game.io.output == g.io.output + (if first && second then [] else [GameStateChange(PAUSED, None, None)])
      && h.game.seen1 == now1 && h.game.seen2 == (if second then now2 else g.seen2)
      && h.game.io.input == g.io.input && h.game.board == g.board && h.game.held == g.held
  {
    var open := g.(paused := false);
    assert Elapsed(now1, now1) == 0 && Elapsed(now2, now2) == 0;
    assert g.io.output + [] == g.io.output;
    assert MarkSeen(open, g.io.thread.seat1.value.fd, now1) == open.(seen1 := now1);
  }

  lemma CheckBothKeeps(g: GameView, now1: Millis, now2: Millis)
    requires UniqueFds(g.io) && g.BothSeated()
    ensures var h := CheckBoth(g, now1, now2);
      && UniqueFds(h.game.io) && h.game.Ready() && h.game.board == g.board && h.game.io.input == g.io.input
      && h.game.io.thread.running == g.io.thread.running
  {
    CheckBothSeats(g, now1, now2);
  }

  lemma ArriveKeeps(g: GameView, now1: Millis, now2: Millis)
    requires UniqueFds(g.io) && g.io.input != []
    ensures var h := Arrive(g, now1, now2);
      && UniqueFds(h.game.io) && (g.Ready() || h.game.BothSeated() ==> h.game.Ready())
      && h.game.board == g.board && (h.game.io.thread.running ==> g.io.thread.running)
      && (!h.stopped ==> h.game.io.input == g.io.input[1..])
  {
    var fd := g.io.input[0].fd;
    var known := g.(io := TakeSeat(g.io), held := g.held + {fd});
    assert UniqueFds(known.io);
    if !g.BothSeated() && known.BothSeated() && fd !in g.held {
      CheckBothKeeps(known, now1, now2);
    }
  }

  // Commands have a defined meaning throughout the batch.
  ghost predicate Defined(g: GameView, msgs: seq<ProtocolData>) {
    g.Ready() || forall i :: 0 <= i < |msgs| ==> msgs[i].methodName != GAME_COMMAND
  }

  // The messages of one read: a parse error disconnects; unhandled messages follow a lost client.
  ghost function HandleBatch(g: GameView, fd: int, msgs: seq<ProtocolData>, clock: nat -> Millis, k: nat): GameView
    requires UniqueFds(g.io) && g.Seated(fd) && Defined(g, msgs)
    decreases |msgs|
  {
    if msgs == [] then g
    else
      MessageKeeps(g, fd, msgs[0], clock(k));
      var h := HandleMessage(g, fd, msgs[0], clock(k));
      if h.stopped then h.game else HandleBatch(h.game, fd, msgs[1..], clock, k + 1)
  }

  lemma BatchStep(g: GameView, fd: int, msgs: seq<ProtocolData>, clock: nat -> Millis, i: nat)
    requires i < |msgs| && UniqueFds(g.io) && g.Seated(fd) && Defined(g, msgs[i..])
    ensures msgs[i].methodName == GAME_COMMAND ==> g.Ready()
    ensures var h := HandleMessage(g, fd, msgs[i], clock(i));
      && (!h.stopped ==> UniqueFds(h.game.io) && h.game.Seated(fd) && Defined(h.game, msgs[i + 1..]))
      && HandleBatch(g, fd, msgs[i..], clock, i) ==
         if h.stopped then h.game else HandleBatch(h.game, fd, msgs[i + 1..], clock, i + 1)
  {
    var rest := msgs[i..];
    assert rest[0] == msgs[i] && rest[1..] == msgs[i + 1..];
    MessageKeeps(g, fd, msgs[i], clock(i));
  }

  // _onClientWrite, as called for a descriptor that the table holds: getPlayer throws if its client
  // was dropped before in the same batch of events. None is an exception of the parser.
  ghost function HandleWrite(g: GameView, fd: int, parsed: Option<seq<ProtocolData>>, clock: nat -> Millis): GameView
    requires UniqueFds(g.io) && (parsed.Some? ==> Defined(g, parsed.value))
  {
    if !g.Seated(fd) then Throw(g)
    else
      match parsed
      case None => LoseClient(g, fd)
      case Some(msgs) => HandleBatch(g, fd, msgs, clock, 0)
  }
}
