// How many players a game thread is ever handed: both seats can be filled exactly while two players
// are there or on their way, and there is never a third in a run in which no game ends while
// clients are on their way to it.
module Capacity {
  import opened Options
  import opened ProtocolMessages
  import opened Rooms
  import opened Lobby
  import opened World
  import opened WorldIndex
  import opened Places
  import opened Names

  function Taken(seat: Option<Client>): nat {
    if seat.Some? then 1 else 0
  }

  function SendsTo(sending: seq<GameSend>, id: int): nat {
    if sending == [] then 0 else (if sending[0].room == id then 1 else 0) + SendsTo(sending[1..], id)
  }

  // The players of room id's game: seated, queued, and still to be queued.
  function Players(w: WorldState, id: int): nat
    requires id in w.threads && id in w.lobby.rooms
  {
    Taken(w.threads[id].seat1) + Taken(w.threads[id].seat2) + |w.lobby.rooms[id].input| + SendsTo(w.sending, id)
  }

  lemma MessageInput(w: WorldState, fd: int, msg: ProtocolData, id: int)
    requires Inv(w) && Enabled(w, Message(fd, msg)) && id in w.lobby.rooms
    ensures var l := Process(w.lobby, fd, msg).lobby;
      id in l.rooms && l.rooms[id].input == w.lobby.rooms[id].input
  {
    if msg.methodName == JOIN_GAME && msg.HasField("game_id") && w.lobby.clients[fd].HasName() {
      JoinKeeps(w, fd, Stoi(msg.GetField("game_id")));
    }
  }

  lemma TwoSends(a: GameSend, b: GameSend, id: int)
    ensures SendsTo([a, b], id) == (if a.room == id then 1 else 0) + (if b.room == id then 1 else 0)
  {
    assert [b][1..] == [];
    assert SendsTo([b], id) == if b.room == id then 1 else 0;
    assert [a, b][1..] == [b];
  }

  lemma MessagePlayers(maxPlayerCount: nat, w: WorldState, fd: int, msg: ProtocolData, id: int)
    requires Inv(w) && Enabled(w, Message(fd, msg)) && id in w.lobby.rooms
    ensures var w' := Apply(maxPlayerCount, w, Message(fd, msg));
      && id in w'.lobby.rooms
      && (id in w.threads ==> id in w'.threads && Players(w', id) == Players(w, id))
      && (id !in w.threads && id in w'.threads ==> Players(w', id) == 2 + |w.lobby.rooms[id].input|)
  {
    MessageInput(w, fd, msg, id);
    MessageKeeps(w, fd, msg);
    var o := Process(w.lobby, fd, msg);
    if o.start.Some? {
      TwoSends(GameSend(o.start.value.room, o.start.value.first), GameSend(o.start.value.room, o.start.value.second), id);
    }
  }

  lemma ReportPlayers(maxPlayerCount: nat, w: WorldState, room: int, id: int)
    requires Inv(w) && Enabled(w, HandleChange(room)) && id in w.threads
    ensures var w' := Apply(maxPlayerCount, w, HandleChange(room));
      id in w'.threads && id in w'.lobby.rooms && Players(w', id) == Players(w, id)
  {
  }

  lemma ThreadPlayers(maxPlayerCount: nat, w: WorldState, step: Step, id: int)
    requires Inv(w) && Enabled(w, step) && id in w.threads && step != End(id)
    requires step.Sit? || step.Leave? || step.Refuse? || step.Stop? || step.End?
    ensures var w' := Apply(maxPlayerCount, w, step);
      id in w'.threads && id in w'.lobby.rooms && Players(w', id) <= Players(w, id)
  {
  }

  // While a game thread lives, its players never become more.
  lemma PlayersShrink(maxPlayerCount: nat, w: WorldState, step: Step, id: int)
    requires Inv(w) && Enabled(w, step) && id in w.threads && step != End(id)
    ensures var w' := Apply(maxPlayerCount, w, step);
      id in w'.threads && id in w'.lobby.rooms && Players(w', id) <= Players(w, id)
  {
    match step
    case Message(fd, msg) => MessagePlayers(maxPlayerCount, w, fd, msg, id);
    case HandleChange(room) => ReportPlayers(maxPlayerCount, w, room, id);
    case Accept(_) =>
    case TakeNew =>
    case Drop(_) =>
    case Send =>
    case _ => ThreadPlayers(maxPlayerCount, w, step, id);
  }

  predicate BothSeated(w: WorldState, id: int) {
    id in w.threads && w.threads[id].seat1.Some? && w.threads[id].seat2.Some?
  }

  // So a game with at most one player left, counting those on their way to it, never has both
  // seats filled again, in any run.
  lemma {:induction false} NeverFullAgain(maxPlayerCount: nat, w: WorldState, steps: seq<Step>, id: int)
    requires Inv(w) && IsRun(maxPlayerCount, w, steps) && End(id) !in steps
    requires id in w.threads && Players(w, id) <= 1
    ensures var w' := Final(maxPlayerCount, w, steps);
      id in w'.threads && !BothSeated(w', id)
    decreases |steps|
  {
    if steps != [] {
      PlayersShrink(maxPlayerCount, w, steps[0], id);
      StepKeeps(maxPlayerCount, w, steps[0]);
      NeverFullAgain(maxPlayerCount, Apply(maxPlayerCount, w, steps[0]), steps[1..], id);
    }
  }

  // Some continuation in which this game does not end has both of its seats filled.
  ghost predicate FillsLater(maxPlayerCount: nat, w: WorldState, id: int) {
    exists steps :: IsRun(maxPlayerCount, w, steps) && End(id) !in steps && BothSeated(Final(maxPlayerCount, w, steps), id)
  }

  lemma FillsStep(maxPlayerCount: nat, w: WorldState, step: Step, id: int)
    requires Enabled(w, step) && step != End(id) && FillsLater(maxPlayerCount, Apply(maxPlayerCount, w, step), id)
    ensures FillsLater(maxPlayerCount, w, id)
  {
    var w1 := Apply(maxPlayerCount, w, step);
    var rest :| IsRun(maxPlayerCount, w1, rest) && End(id) !in rest && BothSeated(Final(maxPlayerCount, w1, rest), id);
    var steps := [step] + rest;
    assert steps[1..] == rest;
    assert IsRun(maxPlayerCount, w, steps) && End(id) !in steps;
  }

  // A push, or a client that takes a free seat, leaves the number of players as it is.
  lemma PlayersMove(maxPlayerCount: nat, w: WorldState, step: Step, id: int)
    requires Inv(w) && Enabled(w, step) && id in w.threads && (step == Send || (step == Sit(id) && !BothSeated(w, id)))
    ensures var w' := Apply(maxPlayerCount, w, step);
      && Inv(w') && id in w'.threads && Players(w', id) == Players(w, id)
      && (step == Send ==> |w'.sending| < |w.sending|)
      && (step == Sit(id) ==> w'.sending == w.sending && |w'.lobby.rooms[id].input| < |w.lobby.rooms[id].input|)
  {
    StepKeeps(maxPlayerCount, w, step);
  }

  lemma {:induction false} TwoPlayersFill(maxPlayerCount: nat, w: WorldState, id: int)
    requires Inv(w) && id in w.threads && Players(w, id) >= 2
    ensures FillsLater(maxPlayerCount, w, id)
    decreases |w.sending|, |w.lobby.rooms[id].input|
  {
    if BothSeated(w, id) {
      assert IsRun(maxPlayerCount, w, []) && End(id) !in [] && Final(maxPlayerCount, w, []) == w;
    } else {
      var step := if w.sending != [] then Send else Sit(id);
      PlayersMove(maxPlayerCount, w, step, id);
      TwoPlayersFill(maxPlayerCount, Apply(maxPlayerCount, w, step), id);
      FillsStep(maxPlayerCount, w, step, id);
    }
  }

  // A running game can still have both seats filled exactly if it has two players, seated, queued
  // or being sent: a player who left is never replaced except by one already on the way.
  lemma FillsIff(maxPlayerCount: nat, w: WorldState, id: int)
    requires Inv(w) && id in w.threads && w.threads[id].running
    ensures FillsLater(maxPlayerCount, w, id) <==> Players(w, id) >= 2
  {
    if Players(w, id) >= 2 {
      TwoPlayersFill(maxPlayerCount, w, id);
    } else if steps :| IsRun(maxPlayerCount, w, steps) && End(id) !in steps && BothSeated(Final(maxPlayerCount, w, steps), id) {
      NeverFullAgain(maxPlayerCount, w, steps, id);
    }
  }

  // ---- No third player ----

  ghost predicate AtMostTwo(w: WorldState) {
    forall id :: id in w.threads && id in w.lobby.rooms ==> Players(w, id) <= 2
  }

  lemma StepAtMostTwo(maxPlayerCount: nat, w: WorldState, step: Step)
    requires Inv(w) && NamesOk(w) && AtMostTwo(w) && Enabled(w, step)
    ensures AtMostTwo(Apply(maxPlayerCount, w, step))
  {
    var w' := Apply(maxPlayerCount, w, step);
    forall id | id in w'.threads && id in w'.lobby.rooms
      ensures Players(w', id) <= 2
    {
      if id in w.threads {
        assert Players(w, id) <= 2;
        PlayersShrink(maxPlayerCount, w, step, id);
      } else {
        NewPlayers(maxPlayerCount, w, step, id);
      }
    }
  }

  // A thread that starts finds an empty queue.
  lemma NewPlayers(maxPlayerCount: nat, w: WorldState, step: Step, id: int)
    requires Inv(w) && NamesOk(w) && Enabled(w, step) && id !in w.threads
    requires var w' := Apply(maxPlayerCount, w, step); id in w'.threads && id in w'.lobby.rooms
    ensures Players(Apply(maxPlayerCount, w, step), id) <= 2
  {
    MessageRooms(maxPlayerCount, w, step, id);
    MessagePlayers(maxPlayerCount, w, step.fd, step.msg, id);
  }

  lemma MessageRooms(maxPlayerCount: nat, w: WorldState, step: Step, id: int)
    requires Inv(w) && Enabled(w, step) && id !in w.threads
    requires var w' := Apply(maxPlayerCount, w, step); id in w'.threads && id in w'.lobby.rooms
    ensures step.Message? && id in w.lobby.rooms
  {
    if step.Message? && step.msg.methodName == JOIN_GAME && step.msg.HasField("game_id") && w.lobby.clients[step.fd].HasName() {
      JoinKeeps(w, step.fd, Stoi(step.msg.GetField("game_id")));
    }
  }

  lemma {:induction false} RunAtMostTwo(maxPlayerCount: nat, w: WorldState, steps: seq<Step>)
    requires Inv(w) && NamesOk(w) && AtMostTwo(w) && IsRun(maxPlayerCount, w, steps) && CleanRun(maxPlayerCount, w, steps)
    ensures AtMostTwo(Final(maxPlayerCount, w, steps))
    decreases |steps|
  {
    if steps != [] {
      StepAtMostTwo(maxPlayerCount, w, steps[0]);
      StepNames(maxPlayerCount, w, steps[0]);
      StepKeeps(maxPlayerCount, w, steps[0]);
      RunAtMostTwo(maxPlayerCount, Apply(maxPlayerCount, w, steps[0]), steps[1..]);
    }
  }

  // In a clean run a game thread that takes a client from its queue has a free seat for it.
  lemma SeatIsFree(maxPlayerCount: nat, roomCount: nat, steps: seq<Step>, id: int)
    requires IsRun(maxPlayerCount, Start(roomCount), steps) && CleanRun(maxPlayerCount, Start(roomCount), steps)
    requires Enabled(Final(maxPlayerCount, Start(roomCount), steps), Sit(id))
    ensures var t := Final(maxPlayerCount, Start(roomCount), steps).threads[id]; t.seat1.None? || t.seat2.None?
  {
    StartOk(roomCount);
    RunAtMostTwo(maxPlayerCount, Start(roomCount), steps);
    assert Players(Final(maxPlayerCount, Start(roomCount), steps), id) <= 2;
  }

  // So in a clean run the pause is final: once a player of a full game has left, the game never
  // has two again, whatever follows.
  lemma CleanPauseIsFinal(maxPlayerCount: nat, roomCount: nat, steps: seq<Step>, id: int, fd: int)
    requires IsRun(maxPlayerCount, Start(roomCount), steps) && CleanRun(maxPlayerCount, Start(roomCount), steps)
    requires var w := Final(maxPlayerCount, Start(roomCount), steps);
      BothSeated(w, id) && (SeatedAt(w.threads[id].seat1, fd) || SeatedAt(w.threads[id].seat2, fd))
    ensures var w := Final(maxPlayerCount, Start(roomCount), steps);
      Enabled(w, Leave(id, fd)) && !FillsLater(maxPlayerCount, Apply(maxPlayerCount, w, Leave(id, fd)), id)
  {
    var w := Final(maxPlayerCount, Start(roomCount), steps);
    StartOk(roomCount);
    RunKeeps(maxPlayerCount, Start(roomCount), steps);
    RunAtMostTwo(maxPlayerCount, Start(roomCount), steps);
    assert id in w.lobby.rooms && Players(w, id) <= 2;
    var w1 := Apply(maxPlayerCount, w, Leave(id, fd));
    StepKeeps(maxPlayerCount, w, Leave(id, fd));
    if rest :| IsRun(maxPlayerCount, w1, rest) && End(id) !in rest && BothSeated(Final(maxPlayerCount, w1, rest), id) {
      NeverFullAgain(maxPlayerCount, w1, rest, id);
    }
  }
}
