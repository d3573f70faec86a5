// Epoll::waitForEvents (src/linux_commons_lib/epoll_lib/Epoll.cpp:45-72): which of the events that
// the kernel reports together reach their handlers. The loop returns as soon as it finds that the
// descriptor at hand is no longer monitored, and with it go all later events of the batch.
module Dispatch {
  import opened Epolls
  import opened EventfdQueues

  datatype Reported = Reported(fd: int, events: bv32)

  // The loop checks every event for every event type in turn: check 6 * i + k is that of event i
  // for the k-th type. What a handler does to the table, when called at a check, is arbitrary.
  type Effects = nat -> seq<Operation>

  function FdAt(batch: seq<Reported>, p: nat): int
    requires p < 6 * |batch|
  {
    batch[p / 6].fd
  }

  // The table has a handler for the k-th type of this event.
  predicate CallsFor(s: EpollState, r: Reported, k: nat)
    requires k < 6
  {
    r.fd in s.monitored && s.monitored[r.fd].HasHandler(r.events & ALL_EVENT_TYPES[k])
  }

  predicate Calls(s: EpollState, batch: seq<Reported>, p: nat)
    requires p < 6 * |batch|
  {
    CallsFor(s, batch[p / 6], p % 6)
  }

  // The descriptor is removed after its last check when it was hung up.
  predicate HungUp(batch: seq<Reported>, p: nat)
    requires p < 6 * |batch|
  {
    p % 6 == 5 && batch[p / 6].events & (EPOLLRDHUP | EPOLLHUP) != 0
  }

  // The table after check p.
  function AfterCheck(s: EpollState, batch: seq<Reported>, effects: Effects, p: nat): EpollState
    requires p < 6 * |batch|
  {
    var s1 := if Calls(s, batch, p) then PerformAll(s, effects(p)) else s;
    if HungUp(batch, p) then Perform(s1, RemoveDescriptor(FdAt(batch, p))).state else s1
  }

  datatype Dispatched = Dispatched(state: EpollState, calls: seq<nat>)

  // The loop from check p on, with the checks at which it calls a handler.
  function Run(s: EpollState, batch: seq<Reported>, effects: Effects, p: nat): Dispatched
    requires p <= 6 * |batch|
    decreases 6 * |batch| - p
  {
    if p == 6 * |batch| || FdAt(batch, p) !in s.monitored then Dispatched(s, [])
    else
      var rest := Run(AfterCheck(s, batch, effects, p), batch, effects, p + 1);
      if Calls(s, batch, p) then rest.(calls := [p] + rest.calls) else rest
  }

  // ---- Which checks the loop comes to ----

  // The table before check p if the loop never returned early.
  function Before(s: EpollState, batch: seq<Reported>, effects: Effects, p: nat): EpollState
    requires p <= 6 * |batch|
  {
    if p == 0 then s else AfterCheck(Before(s, batch, effects, p - 1), batch, effects, p - 1)
  }

  predicate InTurn(s: EpollState, batch: seq<Reported>, effects: Effects, p: nat) {
    p < 6 * |batch| && FdAt(batch, p) in Before(s, batch, effects, p).monitored
  }

  predicate HasCall(s: EpollState, batch: seq<Reported>, effects: Effects, p: nat) {
    p < 6 * |batch| && Calls(Before(s, batch, effects, p), batch, p)
  }

  function InTurns(s: EpollState, batch: seq<Reported>, effects: Effects): nat -> bool {
    (q: nat) => InTurn(s, batch, effects, q)
  }

  function HasCalls(s: EpollState, batch: seq<Reported>, effects: Effects): nat -> bool {
    (q: nat) => HasCall(s, batch, effects, q)
  }

  // A loop over the checks from p to n that returns at the first one out of turn, and collects those with a call.
  function Collect(inTurn: nat -> bool, hasCall: nat -> bool, p: nat, n: nat): seq<nat>
    requires p <= n
    decreases n - p
  {
    if p == n || !inTurn(p) then []
    else (if hasCall(p) then [p] else []) + Collect(inTurn, hasCall, p + 1, n)
  }

  lemma {:induction false} CollectExact(inTurn: nat -> bool, hasCall: nat -> bool, from: nat, n: nat, p: nat)
    requires from <= n
    ensures p in Collect(inTurn, hasCall, from, n) <==>
            from <= p < n && hasCall(p) && forall q: nat :: from <= q <= p ==> inTurn(q)
    decreases n - from
  {
    if from < n && inTurn(from) { CollectExact(inTurn, hasCall, from + 1, n, p); }
  }

  lemma RunStep(s: EpollState, batch: seq<Reported>, effects: Effects, p: nat)
    requires p < 6 * |batch|
    ensures Run(s, batch, effects, p).calls ==
            if FdAt(batch, p) !in s.monitored then []
            else (if Calls(s, batch, p) then [p] else []) + Run(AfterCheck(s, batch, effects, p), batch, effects, p + 1).calls
  {
    var rest := Run(AfterCheck(s, batch, effects, p), batch, effects, p + 1).calls;
    assert [] + rest == rest;
  }

  lemma BeforeStep(s: EpollState, batch: seq<Reported>, effects: Effects, p: nat)
    requires p < 6 * |batch|
    ensures Before(s, batch, effects, p + 1) == AfterCheck(Before(s, batch, effects, p), batch, effects, p)
  {
  }

  lemma {:induction false} RunCollects(s: EpollState, batch: seq<Reported>, effects: Effects, p: nat, here: EpollState)
    requires p <= 6 * |batch| && here == Before(s, batch, effects, p)
    ensures Run(here, batch, effects, p).calls ==
            Collect(InTurns(s, batch, effects), HasCalls(s, batch, effects), p, 6 * |batch|)
    decreases 6 * |batch| - p
  {
    if p < 6 * |batch| {
      var next := AfterCheck(here, batch, effects, p);
      RunStep(here, batch, effects, p);
      BeforeStep(s, batch, effects, p);
      RunCollects(s, batch, effects, p + 1, next);
      TurnHere(s, batch, effects, p, here);
      CollectStep(InTurns(s, batch, effects), HasCalls(s, batch, effects), p, 6 * |batch|);
    }
  }

  lemma TurnHere(s: EpollState, batch: seq<Reported>, effects: Effects, p: nat, here: EpollState)
    requires p < 6 * |batch| && here == Before(s, batch, effects, p)
    ensures InTurns(s, batch, effects)(p) <==> FdAt(batch, p) in here.monitored
    ensures HasCalls(s, batch, effects)(p) <==> Calls(here, batch, p)
  {
  }

  lemma CollectStep(inTurn: nat -> bool, hasCall: nat -> bool, p: nat, n: nat)
    requires p < n
    ensures Collect(inTurn, hasCall, p, n) ==
            if !inTurn(p) then [] else (if hasCall(p) then [p] else []) + Collect(inTurn, hasCall, p + 1, n)
  {
  }

  // Every descriptor is still monitored when its turn comes, up to check p.
  ghost predicate Reached(s: EpollState, batch: seq<Reported>, effects: Effects, p: nat) {
    forall q: nat :: q <= p ==> InTurn(s, batch, effects, q)
  }

  // The loop calls a handler at check p exactly if the table has one there and no descriptor of
  // an earlier or this check was gone when its turn came.
  lemma DispatchExact(s: EpollState, batch: seq<Reported>, effects: Effects, p: nat)
    requires p < 6 * |batch|
    ensures p in Run(s, batch, effects, 0).calls <==> Reached(s, batch, effects, p) && HasCall(s, batch, effects, p)
  {
    RunCollects(s, batch, effects, 0, s);
    CollectExact(InTurns(s, batch, effects), HasCalls(s, batch, effects), 0, 6 * |batch|, p);
    forall q: nat
      ensures InTurn(s, batch, effects, q) == InTurns(s, batch, effects)(q)
    {
    }
  }

  // ---- In terms of what the handlers remove ----

  // The handler at check r is really called.
  ghost predicate Called(s: EpollState, batch: seq<Reported>, effects: Effects, r: nat) {
    Reached(s, batch, effects, r) && HasCall(s, batch, effects, r)
  }

  // Each time these operations add the descriptor it is monitored anyway.
  predicate AddsInVain(s: EpollState, ops: seq<Operation>, fd: int)
    decreases |ops|
  {
    ops == [] || ((ops[0] == AddDescriptor(fd) ==> fd in s.monitored) && AddsInVain(Perform(s, ops[0]).state, ops[1..], fd))
  }

  // No called handler adds the descriptor after it was removed.
  ghost predicate NotAddedBack(s: EpollState, batch: seq<Reported>, effects: Effects, fd: int) {
    forall r: nat :: Called(s, batch, effects, r) ==> AddsInVain(Before(s, batch, effects, r), effects(r), fd)
  }

  // The kernel reports each descriptor once and only monitored ones; once removed none is added again.
  ghost predicate OrdinaryBatch(s: EpollState, batch: seq<Reported>, effects: Effects) {
    && (forall i, j :: 0 <= i < j < |batch| ==> batch[i].fd != batch[j].fd)
    && (forall i :: 0 <= i < |batch| ==> batch[i].fd in s.monitored && NotAddedBack(s, batch, effects, batch[i].fd))
  }

  lemma {:induction false} NeverAddedInVain(s: EpollState, ops: seq<Operation>, fd: int)
    requires AddDescriptor(fd) !in ops
    ensures AddsInVain(s, ops, fd)
    decreases |ops|
  {
    if ops != [] {
      NeverAddedInVain(Perform(s, ops[0]).state, ops[1..], fd);
    }
  }

  lemma PerformMonitored(s: EpollState, op: Operation, fd: int)
    requires op == AddDescriptor(fd) ==> fd in s.monitored
    ensures fd in Perform(s, op).state.monitored <==> fd in s.monitored && op != RemoveDescriptor(fd)
  {
  }

  lemma {:induction false} PerformAllMonitored(s: EpollState, ops: seq<Operation>, fd: int)
    requires AddsInVain(s, ops, fd)
    ensures fd in PerformAll(s, ops).monitored <==> fd in s.monitored && RemoveDescriptor(fd) !in ops
    decreases |ops|
  {
    if ops != [] {
      PerformMonitored(s, ops[0], fd);
      PerformAllMonitored(Perform(s, ops[0]).state, ops[1..], fd);
      assert ops == [ops[0]] + ops[1..];
    }
  }

  // A handler called below check p removes fd.
  ghost predicate RemovedBelow(s: EpollState, batch: seq<Reported>, effects: Effects, p: nat, fd: int) {
    exists r: nat :: r < p && Called(s, batch, effects, r) && RemoveDescriptor(fd) in effects(r)
  }

  lemma CheckMonitored(s: EpollState, batch: seq<Reported>, effects: Effects, p: nat, fd: int)
    requires p < 6 * |batch| && !(HungUp(batch, p) && FdAt(batch, p) == fd)
    requires Calls(s, batch, p) ==> AddsInVain(s, effects(p), fd)
    ensures fd in AfterCheck(s, batch, effects, p).monitored <==>
            fd in s.monitored && !(Calls(s, batch, p) && RemoveDescriptor(fd) in effects(p))
  {
    if Calls(s, batch, p) { PerformAllMonitored(s, effects(p), fd); }
  }

  lemma StepMonitored(s: EpollState, batch: seq<Reported>, effects: Effects, p: nat, fd: int)
    requires p < 6 * |batch| && NotAddedBack(s, batch, effects, fd) && Reached(s, batch, effects, p)
    requires !(HungUp(batch, p) && FdAt(batch, p) == fd)
    ensures fd in Before(s, batch, effects, p + 1).monitored <==>
            fd in Before(s, batch, effects, p).monitored && !(Called(s, batch, effects, p) && RemoveDescriptor(fd) in effects(p))
  {
    BeforeStep(s, batch, effects, p);
    CheckMonitored(Before(s, batch, effects, p), batch, effects, p, fd);
  }

  lemma {:induction false} BeforeMonitored(s: EpollState, batch: seq<Reported>, effects: Effects, p: nat, fd: int)
    requires p <= 6 * |batch| && NotAddedBack(s, batch, effects, fd)
    requires forall q: nat :: q < p ==> InTurn(s, batch, effects, q)
    requires forall q: nat :: q < p && HungUp(batch, q) ==> FdAt(batch, q) != fd
    ensures fd in Before(s, batch, effects, p).monitored <==> fd in s.monitored && !RemovedBelow(s, batch, effects, p, fd)
    decreases p
  {
    if p > 0 {
      var last: nat := p - 1;
      BeforeMonitored(s, batch, effects, last, fd);
      StepMonitored(s, batch, effects, last, fd);
      RemovedStep(s, batch, effects, last, fd);
    }
  }

  lemma RemovedStep(s: EpollState, batch: seq<Reported>, effects: Effects, p: nat, fd: int)
    ensures RemovedBelow(s, batch, effects, p + 1, fd) <==>
            RemovedBelow(s, batch, effects, p, fd) || (Called(s, batch, effects, p) && RemoveDescriptor(fd) in effects(p))
  {
  }

  // No descriptor is removed by a handler called before one of its checks, up to check p.
  ghost predicate RemovedInTime(s: EpollState, batch: seq<Reported>, effects: Effects, p: nat) {
    exists q: nat :: q <= p && q < 6 * |batch| && RemovedBelow(s, batch, effects, q, FdAt(batch, q))
  }

  lemma TurnIff(s: EpollState, batch: seq<Reported>, effects: Effects, q: nat)
    requires OrdinaryBatch(s, batch, effects) && q < 6 * |batch|
    requires forall r: nat :: r < q ==> InTurn(s, batch, effects, r)
    ensures InTurn(s, batch, effects, q) <==> !RemovedBelow(s, batch, effects, q, FdAt(batch, q))
  {
    var fd := FdAt(batch, q);
    forall r: nat | r < q && HungUp(batch, r)
      ensures FdAt(batch, r) != fd
    {
      assert r / 6 < q / 6;
    }
    BeforeMonitored(s, batch, effects, q, fd);
  }

  // Check p is reached exactly if no handler called before removed the descriptor of a check that was still to come.
  lemma {:induction false} ReachedIff(s: EpollState, batch: seq<Reported>, effects: Effects, p: nat)
    requires OrdinaryBatch(s, batch, effects) && p < 6 * |batch|
    ensures Reached(s, batch, effects, p) <==> !RemovedInTime(s, batch, effects, p)
    decreases p
  {
    if p > 0 { ReachedIff(s, batch, effects, p - 1); }
    if forall r: nat :: r < p ==> InTurn(s, batch, effects, r) { TurnIff(s, batch, effects, p); }
    TurnsOn(s, batch, effects, p);
  }

  lemma TurnsOn(s: EpollState, batch: seq<Reported>, effects: Effects, p: nat)
    requires p < 6 * |batch|
    ensures Reached(s, batch, effects, p) <==>
            (p > 0 ==> Reached(s, batch, effects, p - 1)) && InTurn(s, batch, effects, p)
    ensures RemovedInTime(s, batch, effects, p) <==>
            (p > 0 && RemovedInTime(s, batch, effects, p - 1)) || RemovedBelow(s, batch, effects, p, FdAt(batch, p))
  {
  }

  // A handler that removes its own descriptor, unless it is the one for the last event type,
  // hides every later event of the batch.
  lemma RemovalHidesRest(s: EpollState, batch: seq<Reported>, effects: Effects, p: nat, later: nat)
    requires OrdinaryBatch(s, batch, effects) && p < later < 6 * |batch| && p % 6 != 5
    requires HasCall(s, batch, effects, p) && RemoveDescriptor(FdAt(batch, p)) in effects(p)
    ensures later !in Run(s, batch, effects, 0).calls
  {
    if Reached(s, batch, effects, p) {
      assert FdAt(batch, p + 1) == FdAt(batch, p);
      assert Called(s, batch, effects, p);
      assert RemovedBelow(s, batch, effects, p + 1, FdAt(batch, p + 1));
      ReachedIff(s, batch, effects, later);
    }
    DispatchExact(s, batch, effects, later);
  }

  // ---- The event of a queue in such a batch ----

  // These operations leave the descriptor monitored and its read handler in place, though they may
  // register it again.
  predicate KeepsQueue(ops: seq<Operation>, fd: int) {
    forall i :: 0 <= i < |ops| && ops[i].fd == fd ==>
      ops[i].AddDescriptor? || (ops[i].AddEventHandler? && ops[i].handler.Some?)
  }

  predicate IsQueue(s: EpollState, fd: int) {
    fd in s.monitored && s.monitored[fd].inHandler.Some?
  }

  lemma PerformQueue(s: EpollState, op: Operation, fd: int)
    requires IsQueue(s, fd) && KeepsQueue([op], fd)
    ensures IsQueue(Perform(s, op).state, fd)
  {
    assert [op][0] == op;
  }

  lemma {:induction false} PerformAllQueue(s: EpollState, ops: seq<Operation>, fd: int)
    requires IsQueue(s, fd) && KeepsQueue(ops, fd)
    ensures IsQueue(PerformAll(s, ops), fd)
    decreases |ops|
  {
    if ops != [] {
      PerformQueue(s, ops[0], fd);
      PerformAllQueue(Perform(s, ops[0]).state, ops[1..], fd);
    }
  }

  lemma {:induction false} BeforeQueue(s: EpollState, batch: seq<Reported>, effects: Effects, p: nat, fd: int)
    requires p < 6 * |batch| && IsQueue(s, fd) && Reached(s, batch, effects, p)
    requires forall r: nat :: Called(s, batch, effects, r) ==> KeepsQueue(effects(r), fd)
    requires forall q: nat :: q < p ==> FdAt(batch, q) != fd
    ensures IsQueue(Before(s, batch, effects, p), fd)
    decreases p
  {
    if p > 0 {
      var last: nat := p - 1;
      BeforeQueue(s, batch, effects, last, fd);
      BeforeStep(s, batch, effects, last);
      var here := Before(s, batch, effects, last);
      if Calls(here, batch, last) {
        assert Called(s, batch, effects, last);
        PerformAllQueue(here, effects(last), fd);
      }
    }
  }

  // The i-th reported event is the wake-up of a queue, and every called handler leaves it registered.
  ghost predicate QueueEvent(s: EpollState, batch: seq<Reported>, effects: Effects, i: nat) {
    && OrdinaryBatch(s, batch, effects) && i < |batch| && batch[i].events & EPOLLIN != 0 && IsQueue(s, batch[i].fd)
    && forall r: nat :: Called(s, batch, effects, r) ==> KeepsQueue(effects(r), batch[i].fd)
  }

  // Its handler is called exactly if no handler before it removed a descriptor whose turn had not passed.
  lemma QueueEventReached(s: EpollState, batch: seq<Reported>, effects: Effects, i: nat)
    requires QueueEvent(s, batch, effects, i)
    ensures 6 * i in Run(s, batch, effects, 0).calls <==> !RemovedInTime(s, batch, effects, 6 * i)
  {
    var p := 6 * i;
    assert p / 6 == i && p % 6 == 0;
    forall q: nat | q < p
      ensures FdAt(batch, q) != batch[i].fd
    {
      assert q / 6 < i;
    }
    if Reached(s, batch, effects, p) {
      BeforeQueue(s, batch, effects, p, batch[i].fd);
      assert HasCall(s, batch, effects, p);
    }
    ReachedIff(s, batch, effects, p);
    DispatchExact(s, batch, effects, p);
  }

  // So the dispatch of the batch leaves items of the queue asleep exactly if there are any and a
  // handler before it removed a descriptor whose turn had not passed.
  lemma QueueAsleepIff<T(!new)>(s: EpollState, batch: seq<Reported>, effects: Effects, i: nat, queue: Protocol<T>)
    requires QueueEvent(s, batch, effects, i) && Safe(queue) && queue.phase == Waiting && queue.event
    ensures var step := if 6 * i in Run(s, batch, effects, 0).calls then Wake else Miss;
      && Enabled(queue, step)
      && (Asleep(Apply(queue, step)) <==> queue.data != [] && RemovedInTime(s, batch, effects, 6 * i))
  {
    QueueEventReached(s, batch, effects, i);
    AsleepExact(queue, if 6 * i in Run(s, batch, effects, 0).calls then Wake else Miss);
  }

  // ---- A batch whose handlers only close descriptors ----

  predicate OnlyCloses(ops: seq<Operation>) {
    forall i :: 0 <= i < |ops| ==> ops[i].Closed?
  }

  lemma {:induction false} ClosesNothingHere(s: EpollState, ops: seq<Operation>)
    requires OnlyCloses(ops)
    ensures PerformAll(s, ops).monitored == s.monitored
    decreases |ops|
  {
    if ops != [] {
      assert ops[0].Closed?;
      forall i | 0 <= i < |ops[1..]|
        ensures ops[1..][i].Closed?
      {
        assert ops[1..][i] == ops[i + 1];
      }
      ClosesNothingHere(Perform(s, ops[0]).state, ops[1..]);
    }
  }

  lemma {:induction false} BeforeClosing(s: EpollState, batch: seq<Reported>, effects: Effects, p: nat, fd: int)
    requires p <= 6 * |batch| && fd in s.monitored
    requires forall r: nat :: r < p && HasCall(s, batch, effects, r) ==> OnlyCloses(effects(r))
    requires forall q: nat :: q < p && HungUp(batch, q) ==> FdAt(batch, q) != fd
    ensures fd in Before(s, batch, effects, p).monitored && Before(s, batch, effects, p).monitored[fd] == s.monitored[fd]
    decreases p
  {
    if p > 0 {
      var last: nat := p - 1;
      BeforeClosing(s, batch, effects, last, fd);
      BeforeStep(s, batch, effects, last);
      var here := Before(s, batch, effects, last);
      if Calls(here, batch, last) {
        assert HasCall(s, batch, effects, last);
        ClosesNothingHere(here, effects(last));
      }
    }
  }

  // Handlers that close descriptors without removing them hide nothing: a handler that the table has
  // for a reported event is called, also for a descriptor closed meanwhile.
  lemma ClosingHidesNothing(s: EpollState, batch: seq<Reported>, effects: Effects, p: nat)
    requires p < 6 * |batch| && forall i, j :: 0 <= i < j < |batch| ==> batch[i].fd != batch[j].fd
    requires forall i :: 0 <= i < |batch| ==> batch[i].fd in s.monitored
    requires forall r: nat :: r < p && HasCall(s, batch, effects, r) ==> OnlyCloses(effects(r))
    ensures p in Run(s, batch, effects, 0).calls <==> Calls(s, batch, p)
  {
    forall q: nat | q <= p
      ensures InTurn(s, batch, effects, q) && (HasCall(s, batch, effects, q) <==> Calls(s, batch, q))
    {
      forall r: nat | r < q && HungUp(batch, r)
        ensures FdAt(batch, r) != FdAt(batch, q)
      {
        assert r / 6 < q / 6;
      }
      BeforeClosing(s, batch, effects, q, FdAt(batch, q));
    }
    DispatchExact(s, batch, effects, p);
  }

  lemma PositionOf(i: nat, k: nat)
    requires k < 6
    ensures (6 * i + k) / 6 == i && (6 * i + k) % 6 == k
  {
  }

  // The i-th event says that its descriptor hung up: EPOLLRDHUP or EPOLLHUP.
  predicate Forgets(batch: seq<Reported>, i: nat, p: nat, fd: int) {
    i < |batch| && 6 * i + 5 < p && batch[i].fd == fd && batch[i].events & 0x2010 != 0
  }

  ghost predicate Forgotten(batch: seq<Reported>, p: nat, fd: int) {
    exists i: nat :: Forgets(batch, i, p, fd)
  }

  lemma ForgottenStep(batch: seq<Reported>, p: nat, next: nat, fd: int)
    requires p < 6 * |batch| && next == p + 1
    ensures Forgotten(batch, next, fd) <==> Forgotten(batch, p, fd) || (HungUp(batch, p) && FdAt(batch, p) == fd)
  {
    if i: nat :| Forgets(batch, i, p, fd) { assert Forgets(batch, i, next, fd); }
    if HungUp(batch, p) && FdAt(batch, p) == fd { assert Forgets(batch, p / 6, next, fd); }
    if i: nat :| Forgets(batch, i, next, fd) {
      if 6 * i + 5 == p { PositionOf(i, 5); } else { assert Forgets(batch, i, p, fd); }
    }
  }

  lemma {:induction false} BeforeForgetting(s: EpollState, batch: seq<Reported>, effects: Effects, p: nat, fd: int)
    requires p <= 6 * |batch|
    requires forall r: nat :: r < p && HasCall(s, batch, effects, r) ==> OnlyCloses(effects(r))
    ensures fd in Before(s, batch, effects, p).monitored <==> fd in s.monitored && !Forgotten(batch, p, fd)
    decreases p
  {
    if p > 0 {
      var last: nat := p - 1;
      BeforeForgetting(s, batch, effects, last, fd);
      ForgottenStep(batch, last, p, fd);
      BeforeStep(s, batch, effects, last);
      var here := Before(s, batch, effects, last);
      if Calls(here, batch, last) {
        assert HasCall(s, batch, effects, last);
        ClosesNothingHere(here, effects(last));
      }
    }
  }

  lemma {:induction false} RunsThrough(s: EpollState, batch: seq<Reported>, effects: Effects, p: nat, here: EpollState)
    requires p <= 6 * |batch| && here == Before(s, batch, effects, p)
    requires forall q: nat :: p <= q < 6 * |batch| ==> InTurn(s, batch, effects, q)
    ensures Run(here, batch, effects, p).state == Before(s, batch, effects, 6 * |batch|)
    decreases 6 * |batch| - p
  {
    if p < 6 * |batch| {
      assert InTurn(s, batch, effects, p);
      BeforeStep(s, batch, effects, p);
      RunsThrough(s, batch, effects, p + 1, AfterCheck(here, batch, effects, p));
    }
  }

  // The loop itself removes exactly the descriptors that are reported to have hung up.
  lemma HangUpsForgotten(s: EpollState, batch: seq<Reported>, effects: Effects, fd: int)
    requires forall i, j :: 0 <= i < j < |batch| ==> batch[i].fd != batch[j].fd
    requires forall i :: 0 <= i < |batch| ==> batch[i].fd in s.monitored
    requires forall r: nat :: HasCall(s, batch, effects, r) ==> OnlyCloses(effects(r))
    ensures fd in Run(s, batch, effects, 0).state.monitored <==>
            fd in s.monitored && !exists i: nat :: i < |batch| && batch[i].fd == fd && batch[i].events & 0x2010 != 0
  {
    forall q: nat | q < 6 * |batch|
      ensures InTurn(s, batch, effects, q)
    {
      var f := FdAt(batch, q);
      BeforeForgetting(s, batch, effects, q, f);
      forall i: nat | i < |batch| && 6 * i + 5 < q
        ensures !Forgets(batch, i, q, f)
      {
        assert i < q / 6;
      }
    }
    RunsThrough(s, batch, effects, 0, s);
    BeforeForgetting(s, batch, effects, 6 * |batch|, fd);
    if i: nat :| i < |batch| && batch[i].fd == fd && batch[i].events & 0x2010 != 0 {
      assert Forgets(batch, i, 6 * |batch|, fd);
    }
  }

  // ---- The loop itself ----

  method Obey(epoll: Epoll, op: Operation)
    modifies epoll
    ensures epoll.View() == Perform(old(epoll.View()), op).state
  {
    match op {
      case AddDescriptor(fd) => epoll.AddMonitored(fd);
      case RemoveDescriptor(fd) => epoll.RemoveMonitored(fd);
      case AddEventHandler(fd, eventType, handler) => var _ := epoll.AddEventHandlerTo(fd, eventType, handler);
      case RemoveEventHandler(fd, eventType) => var _ := epoll.RemoveEventHandlerFrom(fd, eventType);
      case Closed(fd) => epoll.DescriptorClosed(fd);
    }
  }

  // What the called handler does to the table.
  method CallHandler(epoll: Epoll, ops: seq<Operation>)
    modifies epoll
    ensures epoll.View() == PerformAll(old(epoll.View()), ops)
  {
    for i := 0 to |ops|
      invariant PerformAll(epoll.View(), ops[i..]) == PerformAll(old(epoll.View()), ops)
    {
      assert ops[i..][0] == ops[i] && ops[i..][1..] == ops[i + 1..];
      Obey(epoll, ops[i]);
    }
  }

  // The table once the loop has left the six checks of event i behind.
  function AfterEvent(s: EpollState, r: Reported): EpollState {
    if r.events & (EPOLLRDHUP | EPOLLHUP) != 0 then Perform(s, RemoveDescriptor(r.fd)).state else s
  }

  function Behind(calls: seq<nat>, d: Dispatched): Dispatched {
    d.(calls := calls + d.calls)
  }

  // The loop with these calls behind it and this table, about to make check p, will end up with d.
  ghost predicate Heads(d: Dispatched, calls: seq<nat>, s: EpollState, batch: seq<Reported>, effects: Effects, p: nat) {
    p <= 6 * |batch| && Behind(calls, Run(s, batch, effects, p)) == d
  }

  // The table after check k of event i, at which a handler was called or not.
  function TableAfter(s: EpollState, batch: seq<Reported>, effects: Effects, i: nat, k: nat): EpollState
    requires i < |batch| && k < 6
  {
    if CallsFor(s, batch[i], k) then PerformAll(s, effects(6 * i + k)) else s
  }

  lemma HeadsOn(d: Dispatched, calls: seq<nat>, s: EpollState, batch: seq<Reported>, effects: Effects, i: nat, k: nat)
    requires i < |batch| && k < 6 && Heads(d, calls, s, batch, effects, 6 * i + k)
    ensures var p, s1 := 6 * i + k, TableAfter(s, batch, effects, i, k);
      if batch[i].fd !in s.monitored then d == Dispatched(s, calls)
      else Heads(d, if CallsFor(s, batch[i], k) then calls + [p] else calls,
                 if k == 5 then AfterEvent(s1, batch[i]) else s1, batch, effects, p + 1)
  {
    var s1 := TableAfter(s, batch, effects, i, k);
    var next := if k == 5 then AfterEvent(s1, batch[i]) else s1;
    AfterCheckAt(s, batch, effects, i, k);
    assert next == AfterCheck(s, batch, effects, 6 * i + k);
    RunAhead(calls, s, batch, effects, 6 * i + k, next);
  }

  // One round of the inner loop; gone is its early return.
  method CheckNext(epoll: Epoll, batch: seq<Reported>, effects: Effects, i: nat, k: nat, before: seq<nat>, ghost d: Dispatched)
    returns (gone: bool, calls: seq<nat>)
    requires i < |batch| && k < 6 && Heads(d, before, epoll.View(), batch, effects, 6 * i + k)
    modifies epoll
    ensures gone ==> d == Dispatched(epoll.View(), calls)
    ensures !gone ==> Heads(d, calls, if k == 5 then AfterEvent(epoll.View(), batch[i]) else epoll.View(),
                            batch, effects, 6 * i + k + 1)
  {
    var r := batch[i];
    HeadsOn(d, before, epoll.View(), batch, effects, i, k);
    gone, calls := r.fd !in epoll.monitoredFds, before;
    if gone {
      return;
    }
    if CallsFor(epoll.View(), r, k) {
      CallHandler(epoll, effects(6 * i + k));
      calls := calls + [6 * i + k];
    }
  }

  method WaitForEvents(epoll: Epoll, batch: seq<Reported>, effects: Effects) returns (calls: seq<nat>)
    modifies epoll
    ensures Dispatched(epoll.View(), calls) == Run(old(epoll.View()), batch, effects, 0)
  {
    calls := [];
    ghost var d := Run(epoll.View(), batch, effects, 0);
    for i := 0 to |batch|
      invariant Heads(d, calls, epoll.View(), batch, effects, 6 * i)
    {
      for k := 0 to 6
        invariant Heads(d, calls, if k == 6 then AfterEvent(epoll.View(), batch[i]) else epoll.View(), batch, effects, 6 * i + k)
      {
        var gone;
        gone, calls := CheckNext(epoll, batch, effects, i, k, calls, d);
        if gone {
          return;
        }
      }
      if batch[i].events & (EPOLLRDHUP | EPOLLHUP) != 0 {
        epoll.RemoveMonitored(batch[i].fd);
      }
    }
  }

  lemma AfterCheckAt(s: EpollState, batch: seq<Reported>, effects: Effects, i: nat, k: nat)
    requires i < |batch| && k < 6
    ensures var p := 6 * i + k;
      var s1 := if CallsFor(s, batch[i], k) then PerformAll(s, effects(p)) else s;
      && FdAt(batch, p) == batch[i].fd && (Calls(s, batch, p) <==> CallsFor(s, batch[i], k))
      && AfterCheck(s, batch, effects, p) == if k == 5 then AfterEvent(s1, batch[i]) else s1
  {
    PositionOf(i, k);
  }

  lemma RunAhead(calls: seq<nat>, s: EpollState, batch: seq<Reported>, effects: Effects, p: nat, next: EpollState)
    requires p < 6 * |batch| && next == AfterCheck(s, batch, effects, p)
    ensures Behind(calls, Run(s, batch, effects, p)) ==
            if FdAt(batch, p) !in s.monitored then Dispatched(s, calls)
            else Behind(if Calls(s, batch, p) then calls + [p] else calls, Run(next, batch, effects, p + 1))
  {
    RunStep(s, batch, effects, p);
    CallsRegroup(calls, p, Run(next, batch, effects, p + 1).calls);
  }

  lemma CallsRegroup(calls: seq<nat>, p: nat, rest: seq<nat>)
    ensures calls + ([p] + rest) == (calls + [p]) + rest
    ensures [] + rest == rest && calls + [] == calls
  {
  }
}
