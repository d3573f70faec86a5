// The handlers of one game are runs of that game's thread in the transition system of the server,
// so what every run of the server keeps holds with the real games in it.
module GameThreads {
  import opened Options
  import opened ProtocolMessages
  import opened Rooms
  import opened World
  import opened Places
  import opened GameHandlers
  import opened GameRuns

  predicate OfThread(step: Step, id: int) {
    match step
    case Sit(room) => room == id
    case Leave(room, _) => room == id
    case Refuse(room, _) => room == id
    case Stop(room) => room == id
    case _ => false
  }

  // These steps of the thread of room id take the thread and its queues from their state in w to io.
  ghost predicate RunsTo(maxPlayerCount: nat, w: WorldState, id: int, steps: seq<Step>, io: GameIO) {
    && (forall i :: 0 <= i < |steps| ==> OfThread(steps[i], id))
    && IsRun(maxPlayerCount, w, steps)
    && var w' := Final(maxPlayerCount, w, steps);
      id in w'.threads && id in w'.lobby.rooms && IO(w', id) == io
  }

  lemma OneStep(maxPlayerCount: nat, w: WorldState, id: int, step: Step)
    requires id in w.threads && id in w.lobby.rooms && OfThread(step, id) && Enabled(w, step)
    ensures var io := IO(w, id);
      RunsTo(maxPlayerCount, w, id, [step],
             match step
             case Sit(_) => TakeSeat(io)
             case Leave(_, fd) => LeaveSeat(io, fd)
             case Refuse(_, fd) => RefuseSeat(io, fd)
             case _ => StopGame(io))
  {
    assert [step][1..] == [];
    var w' := Apply(maxPlayerCount, w, step);
    assert IsRun(maxPlayerCount, w', []);
    assert Final(maxPlayerCount, w, [step]) == w';
  }

  lemma Joined(maxPlayerCount: nat, w: WorldState, id: int, s: seq<Step>, io: GameIO, t: seq<Step>, io': GameIO)
    requires RunsTo(maxPlayerCount, w, id, s, io) && RunsTo(maxPlayerCount, Final(maxPlayerCount, w, s), id, t, io')
    ensures RunsTo(maxPlayerCount, w, id, s + t, io')
  {
    FinalAppend(maxPlayerCount, w, s, t);
  }

  lemma DenySteps(maxPlayerCount: nat, w: WorldState, id: int, g: GameView, fd: int) returns (steps: seq<Step>)
    requires id in w.threads && id in w.lobby.rooms && g.io == IO(w, id) && g.Seated(fd)
    ensures RunsTo(maxPlayerCount, w, id, steps, DenyPlayer(g, fd).game.io)
  {
    if DeniedCount(g.io, fd) >= MAX_REQ_DENIED_CNT {
      steps := [Leave(id, fd)];
      OneStep(maxPlayerCount, w, id, Leave(id, fd));
    } else {
      steps := [Refuse(id, fd)];
      OneStep(maxPlayerCount, w, id, Refuse(id, fd));
    }
  }

  lemma AnswerSteps(maxPlayerCount: nat, w: WorldState, id: int, g: GameView, fd: int, msg: ProtocolData)
    returns (steps: seq<Step>)
    requires id in w.threads && id in w.lobby.rooms && g.io == IO(w, id)
    requires g.Seated(fd) && (msg.methodName == GAME_COMMAND ==> g.Ready())
    ensures RunsTo(maxPlayerCount, w, id, steps, Answer(g, fd, msg).game.io)
  {
    var io := Answer(g, fd, msg).game.io;
    if io == g.io {
      steps := [];
    } else if io == DenyPlayer(g, fd).game.io {
      steps := DenySteps(maxPlayerCount, w, id, g, fd);
    } else {
      steps := [Stop(id)];
      OneStep(maxPlayerCount, w, id, Stop(id));
    }
  }

  lemma DropSteps(maxPlayerCount: nat, w: WorldState, id: int, g: GameView, seat: Option<Client>, seen: Millis, now: Millis)
    returns (steps: seq<Step>)
    requires id in w.threads && id in w.lobby.rooms && g.io == IO(w, id)
    ensures RunsTo(maxPlayerCount, w, id, steps, DropIfSilent(g, seat, seen, now).io)
  {
    if DropIfSilent(g, seat, seen, now) == g {
      steps := [];
    } else {
      steps := [Leave(id, seat.value.fd)];
      OneStep(maxPlayerCount, w, id, Leave(id, seat.value.fd));
    }
  }

  lemma SeenSteps(maxPlayerCount: nat, w: WorldState, id: int, g: GameView, fd: int, now: Millis) returns (steps: seq<Step>)
    requires id in w.threads && id in w.lobby.rooms && g.io == IO(w, id) && g.Seated(fd)
    ensures RunsTo(maxPlayerCount, w, id, steps, UpdateSeen(g, fd, now).io)
  {
    var g0 := MarkSeen(g, fd, now);
    var s := DropSteps(maxPlayerCount, w, id, g0, g0.io.thread.seat1, g0.seen1, now);
    var g1 := DropIfSilent(g0, g0.io.thread.seat1, g0.seen1, now);
    var t := DropSteps(maxPlayerCount, Final(maxPlayerCount, w, s), id, g1, g1.io.thread.seat2, g1.seen2, now);
    Joined(maxPlayerCount, w, id, s, g1.io, t, UpdateSeen(g, fd, now).io);
    steps := s + t;
  }

  lemma MessageSteps(maxPlayerCount: nat, w: WorldState, id: int, g: GameView, fd: int, msg: ProtocolData, now: Millis)
    returns (steps: seq<Step>)
    requires id in w.threads && id in w.lobby.rooms && g.io == IO(w, id)
    requires g.Seated(fd) && (msg.methodName == GAME_COMMAND ==> g.Ready())
    ensures RunsTo(maxPlayerCount, w, id, steps, HandleMessage(g, fd, msg, now).game.io)
  {
    var s := AnswerSteps(maxPlayerCount, w, id, g, fd, msg);
    var h := Answer(g, fd, msg);
    if h.stopped {
      steps := s;
    } else {
      StillSeated(g, fd, msg);
      var t := SeenSteps(maxPlayerCount, Final(maxPlayerCount, w, s), id, h.game, fd, now);
      Joined(maxPlayerCount, w, id, s, h.game.io, t, UpdateSeen(h.game, fd, now).io);
      steps := s + t;
    }
  }

  lemma CheckBothSteps(maxPlayerCount: nat, w: WorldState, id: int, g: GameView, now1: Millis, now2: Millis)
    returns (steps: seq<Step>)
    requires id in w.threads && id in w.lobby.rooms && g.io == IO(w, id) && g.BothSeated()
    ensures RunsTo(maxPlayerCount, w, id, steps, CheckBoth(g, now1, now2).game.io)
  {
    var open, fd1 := g.(paused := false), g.io.thread.seat1.value.fd;
    steps := SeenSteps(maxPlayerCount, w, id, open, fd1, now1);
    var first := UpdateSeen(open, fd1, now1);
    if first.io.thread.seat2.Some? {
      var fd2 := first.io.thread.seat2.value.fd;
      var rest := SeenSteps(maxPlayerCount, Final(maxPlayerCount, w, steps), id, first, fd2, now2);
      Joined(maxPlayerCount, w, id, steps, first.io, rest, UpdateSeen(first, fd2, now2).io);
      steps := steps + rest;
    }
  }

  lemma ArriveSteps(maxPlayerCount: nat, w: WorldState, id: int, g: GameView, now1: Millis, now2: Millis)
    returns (steps: seq<Step>)
    requires id in w.threads && id in w.lobby.rooms && g.io == IO(w, id) && g.io.input != []
    ensures RunsTo(maxPlayerCount, w, id, steps, Arrive(g, now1, now2).game.io)
  {
    steps := [Sit(id)];
    OneStep(maxPlayerCount, w, id, Sit(id));
    var fd, sat, w1 := g.io.input[0].fd, g.(io := TakeSeat(g.io)), Final(maxPlayerCount, w, [Sit(id)]);
    if !g.BothSeated() && fd in g.held {
      OneStep(maxPlayerCount, w1, id, Stop(id));
      Joined(maxPlayerCount, w, id, [Sit(id)], sat.io, [Stop(id)], StopGame(sat.io));
      steps := [Sit(id)] + [Stop(id)];
    } else if !g.BothSeated() && sat.BothSeated() {
      var known := sat.(held := g.held + {fd});
      var rest := CheckBothSteps(maxPlayerCount, w1, id, known, now1, now2);
      Joined(maxPlayerCount, w, id, [Sit(id)], sat.io, rest, CheckBoth(known, now1, now2).game.io);
      steps := [Sit(id)] + rest;
    }
  }

  // A game seats and awaits only different connections in any state the server can be in.
  lemma ServerUniqueFds(w: WorldState, id: int)
    requires Conserved(w) && id in w.threads && id in w.lobby.rooms
    ensures UniqueFds(IO(w, id))
  {
    var t, input := w.threads[id], w.lobby.rooms[id].input;
    assert FdAt(w, InSeat(id, true)) == FdOf(t.seat1) && FdAt(w, InSeat(id, false)) == FdOf(t.seat2);
    assert forall i :: 0 <= i < |input| ==> FdAt(w, InInput(id, i)) == Some(input[i].fd);
  }

  // Every handler of a game is a run of its thread; so the server keeps its invariant, and every
  // open connection its one place, through whatever the game does.
  lemma GameIsServerRun(maxPlayerCount: nat, w: WorldState, id: int, g: GameView, e: Event) returns (steps: seq<Step>)
    requires Inv(w) && id in w.threads && id in w.lobby.rooms && g.io == IO(w, id)
    requires Possible(g, e) && !e.Pushed? && !e.Popped?
    ensures RunsTo(maxPlayerCount, w, id, steps, After(g, e).io)
    ensures Inv(Final(maxPlayerCount, w, steps)) && UniqueFds(After(g, e).io)
  {
    match e {
      case Arrival(now1, now2) => steps := ArriveSteps(maxPlayerCount, w, id, g, now1, now2);
      case Request(fd, msg, now) => steps := MessageSteps(maxPlayerCount, w, id, g, fd, msg, now);
      case HangUp(fd) =>
        steps := [Leave(id, fd)];
        OneStep(maxPlayerCount, w, id, Leave(id, fd));
      case StaleRead(_) =>
        steps := [Stop(id)];
        OneStep(maxPlayerCount, w, id, Stop(id));
      case Forgotten(_) => steps := [];
    }
    Places.RunKeeps(maxPlayerCount, w, steps);
    ServerUniqueFds(Final(maxPlayerCount, w, steps), id);
  }
}
