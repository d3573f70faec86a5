// Which descriptors a live game can still be handed: none that it took from its queue before. So the
// closed descriptors that its epoll table keeps never come back to it.
module Arrivals {
  import opened Options
  import opened ProtocolMessages
  import opened Rooms
  import opened World
  import opened WorldIndex
  import opened Places
  import opened GameHandlers
  import opened GameRuns
  import opened GameThreads
  import Capacity
  import GameWatch

  predicate Queued(input: seq<Client>, fd: int) {
    exists i :: 0 <= i < |input| && input[i].fd == fd
  }

  predicate Sent(sending: seq<GameSend>, id: int, fd: int) {
    exists i :: 0 <= i < |sending| && sending[i] == GameSend(id, fd)
  }

  // Queued for the game of room id, or still to be queued.
  predicate Coming(w: WorldState, id: int, fd: int) {
    (id in w.lobby.rooms && Queued(w.lobby.rooms[id].input, fd)) || Sent(w.sending, id, fd)
  }

  lemma MessageComing(maxPlayerCount: nat, w: WorldState, fd: int, msg: ProtocolData, id: int, f: int)
    requires Inv(w) && Enabled(w, Message(fd, msg)) && id in w.threads
    ensures Coming(Apply(maxPlayerCount, w, Message(fd, msg)), id, f) ==> Coming(w, id, f)
  {
    Capacity.MessageInput(w, fd, msg, id);
    WorldIndex.MessageKeeps(w, fd, msg);
  }

  lemma SendComing(maxPlayerCount: nat, w: WorldState, id: int, f: int)
    requires Inv(w) && Enabled(w, Send) && id in w.threads
    ensures Coming(Apply(maxPlayerCount, w, Send), id, f) ==> Coming(w, id, f)
  {
    var w', send := Apply(maxPlayerCount, w, Send), w.sending[0];
    assert w.lobby.clients[send.fd].fd == send.fd;
    if Sent(w'.sending, id, f) {
      var i :| 0 <= i < |w'.sending| && w'.sending[i] == GameSend(id, f);
      assert w.sending[i + 1] == GameSend(id, f);
    } else if Queued(w'.lobby.rooms[id].input, f) && !Queued(w.lobby.rooms[id].input, f) {
      assert send == GameSend(id, f);
    }
  }

  // A client taken from the queue is gone from it, and was not among those still to be queued.
  lemma SitComing(maxPlayerCount: nat, w: WorldState, id: int, f: int)
    requires Inv(w) && Enabled(w, Sit(id)) && !Capacity.BothSeated(w, id)
    ensures Coming(Apply(maxPlayerCount, w, Sit(id)), id, f) <==> Coming(w, id, f) && f != w.lobby.rooms[id].input[0].fd
  {
    var input, input' := w.lobby.rooms[id].input, Apply(maxPlayerCount, w, Sit(id)).lobby.rooms[id].input;
    assert input' == input[1..];
    FirstIsAlone(w, id);
    if i :| 0 <= i < |input| && input[i].fd == f && f != input[0].fd {
      assert input'[i - 1].fd == f;
    }
  }

  // The first client of the queue is there once, and nowhere else.
  lemma FirstIsAlone(w: WorldState, id: int)
    requires Inv(w) && id in w.lobby.rooms && w.lobby.rooms[id].input != []
    ensures var input := w.lobby.rooms[id].input; !Queued(input[1..], input[0].fd) && !Sent(w.sending, id, input[0].fd)
  {
    var input := w.lobby.rooms[id].input;
    assert FdAt(w, InInput(id, 0)) == Some(input[0].fd);
    forall i | 0 <= i < |input[1..]|
      ensures input[1..][i].fd != input[0].fd
    {
      assert FdAt(w, InInput(id, i + 1)) == Some(input[1..][i].fd);
    }
    forall i | 0 <= i < |w.sending|
      ensures w.sending[i].fd != input[0].fd
    {
      assert FdAt(w, InLobby(w.sending[i].fd)) == Some(w.sending[i].fd);
    }
  }

  // While a game lives, nobody is added to those on their way to it.
  lemma ComingShrinks(maxPlayerCount: nat, w: WorldState, step: Step, id: int, f: int)
    requires Inv(w) && Enabled(w, step) && id in w.threads && step != End(id)
    ensures var w' := Apply(maxPlayerCount, w, step); id in w'.threads && (Coming(w', id, f) ==> Coming(w, id, f))
  {
    Capacity.PlayersShrink(maxPlayerCount, w, step, id);
    match step
    case Message(fd, msg) => MessageComing(maxPlayerCount, w, fd, msg, id, f);
    case Send => SendComing(maxPlayerCount, w, id, f);
    case Sit(room) => if room == id && !Capacity.BothSeated(w, id) { SitComing(maxPlayerCount, w, id, f); }
    case _ =>
  }

  lemma {:induction false} StaysAway(maxPlayerCount: nat, w: WorldState, steps: seq<Step>, id: int, f: int)
    requires Inv(w) && IsRun(maxPlayerCount, w, steps) && id in w.threads && End(id) !in steps && !Coming(w, id, f)
    ensures var w' := Final(maxPlayerCount, w, steps); Inv(w') && id in w'.threads && !Coming(w', id, f)
    decreases |steps|
  {
    if steps != [] {
      ComingShrinks(maxPlayerCount, w, steps[0], id, f);
      StepKeeps(maxPlayerCount, w, steps[0]);
      StaysAway(maxPlayerCount, Apply(maxPlayerCount, w, steps[0]), steps[1..], id, f);
    }
  }

  // The descriptors that the game of room id takes from its queue in this run.
  ghost function TakenIn(maxPlayerCount: nat, w: WorldState, steps: seq<Step>, id: int): set<int>
    requires IsRun(maxPlayerCount, w, steps)
    decreases |steps|
  {
    if steps == [] then {}
    else
      var rest := TakenIn(maxPlayerCount, Apply(maxPlayerCount, w, steps[0]), steps[1..], id);
      if steps[0] == Sit(id) && !Capacity.BothSeated(w, id) then rest + {w.lobby.rooms[id].input[0].fd} else rest
  }

  // In no interleaving does a live game find a descriptor in its queue that it has taken before,
  // whatever was closed, accepted and seated elsewhere in between.
  lemma {:induction false} NeverTwice(maxPlayerCount: nat, w: WorldState, steps: seq<Step>, id: int, f: int)
    requires Inv(w) && IsRun(maxPlayerCount, w, steps) && id in w.threads && End(id) !in steps
    requires f in TakenIn(maxPlayerCount, w, steps, id)
    ensures !Coming(Final(maxPlayerCount, w, steps), id, f)
    decreases |steps|
  {
    var w1 := Apply(maxPlayerCount, w, steps[0]);
    ComingShrinks(maxPlayerCount, w, steps[0], id, f);
    StepKeeps(maxPlayerCount, w, steps[0]);
    if f in TakenIn(maxPlayerCount, w1, steps[1..], id) {
      NeverTwice(maxPlayerCount, w1, steps[1..], id, f);
    } else {
      SitComing(maxPlayerCount, w, id, f);
      StaysAway(maxPlayerCount, w1, steps[1..], id, f);
    }
  }

  // ---- A game in its server ----

  // The server, and the game of one of its rooms.
  datatype Joint = Joint(world: WorldState, game: GameView)

  // The game is that of room id's thread, and no descriptor its table still holds is coming to it.
  ghost predicate NoneReturns(j: Joint, id: int) {
    && Inv(j.world) && id in j.world.threads && id in j.world.lobby.rooms && j.game.io == IO(j.world, id)
    && forall fd :: fd in j.game.held ==> !Coming(j.world, id, fd)
  }

  // An event of the game, done by these steps of its thread; or a step of another thread, which may
  // push to the game's queue or pop from it.
  datatype Turn = Own(event: Event, steps: seq<Step>) | Others(step: Step)

  ghost predicate GameMoves(maxPlayerCount: nat, j: Joint, j': Joint, id: int, e: Event, steps: seq<Step>) {
    && Possible(j.game, e) && !e.Pushed? && !e.Popped? && !GameWatch.Throws(j.game, e) && j'.game == After(j.game, e)
    && RunsTo(maxPlayerCount, j.world, id, steps, j'.game.io) && j'.world == Final(maxPlayerCount, j.world, steps)
  }

  ghost predicate OthersMove(maxPlayerCount: nat, j: Joint, j': Joint, id: int, step: Step) {
    && Enabled(j.world, step) && !OfThread(step, id) && step != End(id)
    && j'.world == Apply(maxPlayerCount, j.world, step)
    && id in j'.world.threads && id in j'.world.lobby.rooms && j'.game == j.game.(io := IO(j'.world, id))
  }

  ghost predicate Moves(maxPlayerCount: nat, j: Joint, j': Joint, id: int, turn: Turn) {
    match turn
    case Own(e, steps) => GameMoves(maxPlayerCount, j, j', id, e, steps)
    case Others(step) => OthersMove(maxPlayerCount, j, j', id, step)
  }

  lemma {:induction false} ThreadSendsNothing(maxPlayerCount: nat, w: WorldState, steps: seq<Step>, id: int)
    requires IsRun(maxPlayerCount, w, steps) && forall i :: 0 <= i < |steps| ==> OfThread(steps[i], id)
    ensures Final(maxPlayerCount, w, steps).sending == w.sending && End(id) !in steps
    decreases |steps|
  {
    if steps != [] {
      assert OfThread(steps[0], id);
      forall i | 0 <= i < |steps[1..]|
        ensures OfThread(steps[1..][i], id)
      {
        assert steps[1..][i] == steps[i + 1];
      }
      ThreadSendsNothing(maxPlayerCount, Apply(maxPlayerCount, w, steps[0]), steps[1..], id);
    }
  }

  lemma GameMovesOn(maxPlayerCount: nat, j: Joint, j': Joint, id: int, e: Event, steps: seq<Step>)
    requires NoneReturns(j, id) && GameMoves(maxPlayerCount, j, j', id, e, steps)
    ensures NoneReturns(j', id)
  {
    ThreadSendsNothing(maxPlayerCount, j.world, steps, id);
    Places.RunKeeps(maxPlayerCount, j.world, steps);
    ServerUniqueFds(j.world, id);
    GameWatch.HeldChanges(j.game, e);
    forall fd | fd in j'.game.held
      ensures !Coming(j'.world, id, fd)
    {
      if fd in j.game.held {
        StaysAway(maxPlayerCount, j.world, steps, id, fd);
      } else {
        FirstIsAlone(j.world, id);
        GameWatch.ArrivalLoses(j.game, e.now1, e.now2);
      }
    }
  }

  lemma OthersMoveOn(maxPlayerCount: nat, j: Joint, j': Joint, id: int, step: Step)
    requires NoneReturns(j, id) && OthersMove(maxPlayerCount, j, j', id, step)
    ensures NoneReturns(j', id)
  {
    StepKeeps(maxPlayerCount, j.world, step);
    forall fd | fd in j'.game.held
      ensures !Coming(j'.world, id, fd)
    {
      ComingShrinks(maxPlayerCount, j.world, step, id, fd);
    }
  }

  ghost predicate SomeTurn(maxPlayerCount: nat, j: Joint, j': Joint, id: int) {
    exists turn :: Moves(maxPlayerCount, j, j', id, turn)
  }

  ghost predicate IsJointRun(maxPlayerCount: nat, js: seq<Joint>, id: int) {
    forall i :: 0 < i < |js| ==> SomeTurn(maxPlayerCount, js[i - 1], js[i], id)
  }

  lemma TurnKeeps(maxPlayerCount: nat, j: Joint, j': Joint, id: int)
    requires NoneReturns(j, id) && SomeTurn(maxPlayerCount, j, j', id)
    ensures NoneReturns(j', id)
  {
    var turn :| Moves(maxPlayerCount, j, j', id, turn);
    match turn
    case Own(e, steps) => GameMovesOn(maxPlayerCount, j, j', id, e, steps);
    case Others(step) => OthersMoveOn(maxPlayerCount, j, j', id, step);
  }

  lemma {:induction false} NeverReturns(maxPlayerCount: nat, js: seq<Joint>, id: int, i: nat)
    requires i < |js| && IsJointRun(maxPlayerCount, js, id) && NoneReturns(js[0], id)
    ensures NoneReturns(js[i], id)
  {
    if i > 0 {
      NeverReturns(maxPlayerCount, js, id, i - 1);
      TurnKeeps(maxPlayerCount, js[i - 1], js[i], id);
    }
  }

  // From the start of a game in any state of the server, through any events of the game and any steps
  // around it: an arrival throws only as a third player, never for a descriptor the table still holds.
  lemma ArrivalThrowsIff(maxPlayerCount: nat, js: seq<Joint>, id: int, i: nat, now1: Millis, now2: Millis)
    requires i < |js| && IsJointRun(maxPlayerCount, js, id)
    requires Inv(js[0].world) && id in js[0].world.threads && id in js[0].world.lobby.rooms
    requires js[0].game == NEW_GAME.(io := IO(js[0].world, id))
    requires Possible(js[i].game, Arrival(now1, now2))
    ensures GameWatch.Throws(js[i].game, Arrival(now1, now2)) <==> js[i].game.BothSeated()
  {
    NeverReturns(maxPlayerCount, js, id, i);
    var g := js[i].game;
    assert Queued(g.io.input, g.io.input[0].fd);
    assert Coming(js[i].world, id, g.io.input[0].fd);
  }
}
