// src/linux_commons_lib/epoll_lib/Epoll.cpp: the table of event handlers against the kernel's
// interest set.
module Epolls {
  import opened Options

  const EPOLLIN: bv32 := 0x0001
  const EPOLLPRI: bv32 := 0x0002
  const EPOLLOUT: bv32 := 0x0004
  const EPOLLERR: bv32 := 0x0008
  const EPOLLHUP: bv32 := 0x0010
  const EPOLLRDHUP: bv32 := 0x2000
  const EPOLLET: bv32 := 0x8000_0000

  const ALL_EVENT_TYPES: seq<bv32> := [EPOLLIN, EPOLLOUT, EPOLLRDHUP, EPOLLPRI, EPOLLERR, EPOLLHUP]

  // A handler function; None is the empty std::function.
  type Handler = Option<nat>

  datatype MonitoredDescriptor = MonitoredDescriptor(
    isInitialized: bool,
    inHandler: Handler, outHandler: Handler, rdhupHandler: Handler,
    priHandler: Handler, errHandler: Handler, hupHandler: Handler)
  {
    function GetHandler(eventType: bv32): Handler {
      if eventType == EPOLLIN then inHandler
      else if eventType == EPOLLOUT then outHandler
      else if eventType == EPOLLRDHUP then rdhupHandler
      else if eventType == EPOLLPRI then priHandler
      else if eventType == EPOLLERR then errHandler
      else if eventType == EPOLLHUP then hupHandler
      else None
    }

    predicate HasHandler(eventType: bv32) { GetHandler(eventType).Some? }

    function SetHandler(eventType: bv32, handler: Handler): MonitoredDescriptor {
      if eventType == EPOLLIN then this.(inHandler := handler)
      else if eventType == EPOLLOUT then this.(outHandler := handler)
      else if eventType == EPOLLRDHUP then this.(rdhupHandler := handler)
      else if eventType == EPOLLPRI then this.(priHandler := handler)
      else if eventType == EPOLLERR then this.(errHandler := handler)
      else if eventType == EPOLLHUP then this.(hupHandler := handler)
      else this
    }
  }

  const NEW_DESCRIPTOR: MonitoredDescriptor := MonitoredDescriptor(false, None, None, None, None, None, None)

  datatype EpollState = EpollState(monitored: map<int, MonitoredDescriptor>, kernel: map<int, bv32>, edgeTriggered: bool)

  // ---- What the descriptor's handlers and the kernel's mask should be ----

  predicate IsEventType(e: bv32) {
    e in ALL_EVENT_TYPES
  }

  // md' has the given handler for every event type in the mask, and md's for the others.
  ghost predicate HandlersSet(md: MonitoredDescriptor, mask: bv32, handler: Handler, md': MonitoredDescriptor) {
    && md'.isInitialized == md.isInitialized
    && forall e :: IsEventType(e) ==> md'.GetHandler(e) == if mask & e != 0 then handler else md.GetHandler(e)
  }

  // The mask has the bit of every event type with a handler, EPOLLET in edge mode, and no other bit.
  ghost predicate MaskIs(mask: bv32, md: MonitoredDescriptor, edgeTriggered: bool) {
    && (forall e :: IsEventType(e) ==> (mask & e != 0 <==> md.HasHandler(e)))
    && (mask & EPOLLET != 0 <==> edgeTriggered)
    && mask & !(EPOLLIN | EPOLLOUT | EPOLLRDHUP | EPOLLPRI | EPOLLERR | EPOLLHUP | EPOLLET) == 0
  }

  // The kernel watches exactly the initialized descriptors, each for the events that have handlers.
  ghost predicate Coherent(s: EpollState) {
    && (forall fd :: fd in s.kernel <==> fd in s.monitored && s.monitored[fd].isInitialized)
    && (forall fd :: fd in s.kernel && fd in s.monitored ==> MaskIs(s.kernel[fd], s.monitored[fd], s.edgeTriggered))
  }

  // The same without the descriptors that were closed while monitored, which the kernel forgets.
  ghost predicate CoherentButClosed(s: EpollState) {
    && (forall fd :: fd in s.kernel ==> fd in s.monitored && s.monitored[fd].isInitialized)
    && (forall fd :: fd in s.kernel && fd in s.monitored ==> MaskIs(s.kernel[fd], s.monitored[fd], s.edgeTriggered))
  }

  // ---- Masks ----

  function Bit(has: bool, e: bv32): bv32 {
    if has then e else 0
  }

  // The bits of the first k event types with a handler.
  function EventBits(md: MonitoredDescriptor, k: nat): bv32 {
    Bit(k > 0 && md.inHandler.Some?, EPOLLIN) | Bit(k > 1 && md.outHandler.Some?, EPOLLOUT)
    | Bit(k > 2 && md.rdhupHandler.Some?, EPOLLRDHUP) | Bit(k > 3 && md.priHandler.Some?, EPOLLPRI)
    | Bit(k > 4 && md.errHandler.Some?, EPOLLERR) | Bit(k > 5 && md.hupHandler.Some?, EPOLLHUP)
  }

  lemma NextBit(md: MonitoredDescriptor, k: nat)
    requires k < 6
    ensures var evt := ALL_EVENT_TYPES[k];
      if !md.HasHandler(evt) then EventBits(md, k + 1) == EventBits(md, k)
      else
        && EventBits(md, k + 1) == EventBits(md, k) | evt
        && (EventBits(md, k) == 0 ==> EventBits(md, k + 1) == evt)
  {
  }

  function FullMask(md: MonitoredDescriptor, edgeTriggered: bool): bv32 {
    if edgeTriggered then EventBits(md, 6) | EPOLLET else EventBits(md, 6)
  }

  // Each of six different single bits is in their union exactly when it was put there.
  lemma UnionBits(a: bv32, b: bv32, c: bv32, d: bv32, e: bv32, f: bv32, g: bv32)
    requires (a == 0 || a == 0x1) && (b == 0 || b == 0x4) && (c == 0 || c == 0x2000) && (d == 0 || d == 0x2)
    requires (e == 0 || e == 0x8) && (f == 0 || f == 0x10) && (g == 0 || g == 0x8000_0000)
    ensures var m := a | b | c | d | e | f | g;
      && (m & 0x1 != 0 <==> a != 0) && (m & 0x4 != 0 <==> b != 0) && (m & 0x2000 != 0 <==> c != 0)
      && (m & 0x2 != 0 <==> d != 0) && (m & 0x8 != 0 <==> e != 0) && (m & 0x10 != 0 <==> f != 0)
      && (m & 0x8000_0000 != 0 <==> g != 0) && m & 0x7FFF_DFE0 == 0
  {
  }

  lemma FullMaskIs(md: MonitoredDescriptor, edgeTriggered: bool)
    ensures MaskIs(FullMask(md, edgeTriggered), md, edgeTriggered)
  {
    var g: bv32 := if edgeTriggered then EPOLLET else 0;
    UnionBits(Bit(md.inHandler.Some?, EPOLLIN), Bit(md.outHandler.Some?, EPOLLOUT), Bit(md.rdhupHandler.Some?, EPOLLRDHUP),
              Bit(md.priHandler.Some?, EPOLLPRI), Bit(md.errHandler.Some?, EPOLLERR), Bit(md.hupHandler.Some?, EPOLLHUP), g);
    forall t | IsEventType(t)
      ensures FullMask(md, edgeTriggered) & t != 0 <==> md.HasHandler(t)
    {
    }
  }

  // ---- The operations ----

  // The handler is set for those of the first k event types that the mask names.
  function SetFirst(md: MonitoredDescriptor, mask: bv32, handler: Handler, k: nat): MonitoredDescriptor {
    MonitoredDescriptor(
      md.isInitialized,
      if k > 0 && mask & EPOLLIN != 0 then handler else md.inHandler,
      if k > 1 && mask & EPOLLOUT != 0 then handler else md.outHandler,
      if k > 2 && mask & EPOLLRDHUP != 0 then handler else md.rdhupHandler,
      if k > 3 && mask & EPOLLPRI != 0 then handler else md.priHandler,
      if k > 4 && mask & EPOLLERR != 0 then handler else md.errHandler,
      if k > 5 && mask & EPOLLHUP != 0 then handler else md.hupHandler)
  }

  function SetHandlers(md: MonitoredDescriptor, mask: bv32, handler: Handler): MonitoredDescriptor {
    SetFirst(md, mask, handler, 6)
  }

  lemma SetHandlersSets(md: MonitoredDescriptor, mask: bv32, handler: Handler)
    ensures HandlersSet(md, mask, handler, SetHandlers(md, mask, handler))
  {
    forall e | IsEventType(e)
      ensures SetHandlers(md, mask, handler).GetHandler(e) == if mask & e != 0 then handler else md.GetHandler(e)
    {
    }
  }

  datatype Outcome = Outcome(state: EpollState, threw: bool)

  // _reloadEventHandlers: the kernel refuses ADD for a watched descriptor and MOD for one it does not watch.
  function Reload(s: EpollState, fd: int): Outcome
    requires fd in s.monitored
  {
    var md := s.monitored[fd];
    var watched := s.(kernel := s.kernel[fd := FullMask(md, s.edgeTriggered)]);
    if md.isInitialized != (fd in s.kernel) then Outcome(s, true)
    else if md.isInitialized then Outcome(watched, false)
    else Outcome(watched.(monitored := s.monitored[fd := md.(isInitialized := true)]), false)
  }

  function ChangeHandlers(s: EpollState, fd: int, eventType: bv32, handler: Handler): Outcome {
    if fd !in s.monitored then Outcome(s, true)
    else Reload(s.(monitored := s.monitored[fd := SetHandlers(s.monitored[fd], eventType, handler)]), fd)
  }

  // Closed is the process closing a descriptor, after which the kernel no longer watches it.
  datatype Operation =
    | AddDescriptor(fd: int)
    | RemoveDescriptor(fd: int)
    | AddEventHandler(fd: int, eventType: bv32, handler: Handler)
    | RemoveEventHandler(fd: int, eventType: bv32)
    | Closed(fd: int)

  function Perform(s: EpollState, op: Operation): Outcome {
    match op
    case AddDescriptor(fd) =>
      Outcome(if fd in s.monitored then s else s.(monitored := s.monitored[fd := NEW_DESCRIPTOR]), false)
    case RemoveDescriptor(fd) =>
      Outcome(if fd in s.monitored then s.(monitored := s.monitored - {fd}, kernel := s.kernel - {fd}) else s, false)
    case AddEventHandler(fd, eventType, handler) => ChangeHandlers(s, fd, eventType, handler)
    case RemoveEventHandler(fd, eventType) => ChangeHandlers(s, fd, eventType, None)
    case Closed(fd) => Outcome(s.(kernel := s.kernel - {fd}), false)
  }

  predicate TouchesHandlers(op: Operation) {
    op.AddEventHandler? || op.RemoveEventHandler?
  }

  // The descriptor's new mask is right, before and after it counts as initialized.
  lemma NewMask(md: MonitoredDescriptor, edgeTriggered: bool)
    ensures MaskIs(FullMask(md, edgeTriggered), md, edgeTriggered)
    ensures MaskIs(FullMask(md, edgeTriggered), md.(isInitialized := true), edgeTriggered)
  {
    FullMaskIs(md, edgeTriggered);
    SameHandlers(FullMask(md, edgeTriggered), md, edgeTriggered);
  }

  lemma ChangeKeeps(s: EpollState, fd: int, eventType: bv32, handler: Handler)
    requires Coherent(s) && fd in s.monitored
    ensures var o := ChangeHandlers(s, fd, eventType, handler); Coherent(o.state) && !o.threw
  {
    var md := SetHandlers(s.monitored[fd], eventType, handler);
    NewMask(md, s.edgeTriggered);
    var s' := ChangeHandlers(s, fd, eventType, handler).state;
    assert s'.monitored[fd] == md.(isInitialized := true) && s'.kernel[fd] == FullMask(md, s.edgeTriggered);
    assert forall f :: f != fd && f in s.monitored ==> s'.monitored[f] == s.monitored[f];
  }

  lemma ChangeAnyway(s: EpollState, fd: int, eventType: bv32, handler: Handler)
    requires CoherentButClosed(s) && fd in s.monitored
    ensures var o := ChangeHandlers(s, fd, eventType, handler);
      CoherentButClosed(o.state) && (o.threw <==> s.monitored[fd].isInitialized && fd !in s.kernel)
  {
    var md := SetHandlers(s.monitored[fd], eventType, handler);
    NewMask(md, s.edgeTriggered);
    var s' := ChangeHandlers(s, fd, eventType, handler).state;
    assert forall f :: f != fd && f in s.monitored ==> s'.monitored[f] == s.monitored[f];
  }

  lemma SameHandlers(mask: bv32, md: MonitoredDescriptor, edgeTriggered: bool)
    requires MaskIs(mask, md, edgeTriggered)
    ensures MaskIs(mask, md.(isInitialized := true), edgeTriggered)
  {
    forall e | IsEventType(e)
      ensures mask & e != 0 <==> md.(isInitialized := true).HasHandler(e)
    {
      assert mask & e != 0 <==> md.HasHandler(e);
    }
  }

  // Unless the kernel forgot a descriptor that is still monitored, ADD is never used on a watched
  // descriptor and MOD never on one that is not: only an unknown descriptor makes a call throw.
  lemma PerformKeeps(s: EpollState, op: Operation)
    requires Coherent(s) && (op.Closed? ==> op.fd !in s.kernel)
    ensures Coherent(Perform(s, op).state)
    ensures Perform(s, op).threw <==> TouchesHandlers(op) && op.fd !in s.monitored
  {
    match op
    case AddEventHandler(fd, eventType, handler) =>
      if fd in s.monitored { ChangeKeeps(s, fd, eventType, handler); }
    case RemoveEventHandler(fd, eventType) =>
      if fd in s.monitored { ChangeKeeps(s, fd, eventType, None); }
    case _ =>
  }

  // With descriptors closed at any time: a call throws exactly for a descriptor that is not
  // monitored, or that was closed while it was.
  lemma PerformAnyway(s: EpollState, op: Operation)
    requires CoherentButClosed(s)
    ensures CoherentButClosed(Perform(s, op).state)
    ensures Perform(s, op).threw <==>
            TouchesHandlers(op) && (op.fd !in s.monitored || (s.monitored[op.fd].isInitialized && op.fd !in s.kernel))
  {
    match op
    case AddEventHandler(fd, eventType, handler) =>
      if fd in s.monitored { ChangeAnyway(s, fd, eventType, handler); }
    case RemoveEventHandler(fd, eventType) =>
      if fd in s.monitored { ChangeAnyway(s, fd, eventType, None); }
    case _ =>
  }

  lemma InitializedSame(md: MonitoredDescriptor, md': MonitoredDescriptor, e: bv32)
    requires md' == md || md' == md.(isInitialized := true)
    ensures md'.GetHandler(e) == md.GetHandler(e)
  {
  }

  lemma ChangedEntry(s: EpollState, fd: int, mask: bv32, handler: Handler, other: int)
    requires fd in s.monitored && other in s.monitored
    ensures var o := ChangeHandlers(s, fd, mask, handler);
      && other in o.state.monitored
      && var md := if other == fd then SetHandlers(s.monitored[fd], mask, handler) else s.monitored[other];
        o.state.monitored[other] == md || o.state.monitored[other] == md.(isInitialized := true)
  {
  }

  lemma ChangeSets(s: EpollState, fd: int, mask: bv32, handler: Handler, other: int, e: bv32)
    requires fd in s.monitored && other in s.monitored && IsEventType(e)
    ensures var o := ChangeHandlers(s, fd, mask, handler);
      && other in o.state.monitored
      && o.state.monitored[other].GetHandler(e) ==
         if other == fd && mask & e != 0 then handler else s.monitored[other].GetHandler(e)
  {
    ChangedEntry(s, fd, mask, handler, other);
    var md := if other == fd then SetHandlers(s.monitored[fd], mask, handler) else s.monitored[other];
    InitializedSame(md, ChangeHandlers(s, fd, mask, handler).state.monitored[other], e);
    SetHandlersSets(s.monitored[fd], mask, handler);
  }

  // A call gives its descriptor the handler for the named event types, or takes theirs away, and leaves
  // all other handlers as they were.
  lemma CallSetsHandlers(s: EpollState, fd: int, mask: bv32, handler: Handler, other: int, e: bv32)
    requires fd in s.monitored && other in s.monitored && IsEventType(e)
    ensures var s' := Perform(s, AddEventHandler(fd, mask, handler)).state;
      other in s'.monitored && s'.monitored[other].GetHandler(e) ==
                               if other == fd && mask & e != 0 then handler else s.monitored[other].GetHandler(e)
    ensures var s' := Perform(s, RemoveEventHandler(fd, mask)).state;
      other in s'.monitored && s'.monitored[other].GetHandler(e) ==
                               if other == fd && mask & e != 0 then None else s.monitored[other].GetHandler(e)
  {
    ChangeSets(s, fd, mask, handler, other, e);
    ChangeSets(s, fd, mask, None, other, e);
  }

  // ---- Every run ----

  function NewEpoll(edgeTriggered: bool): EpollState {
    EpollState(map[], map[], edgeTriggered)
  }

  function PerformAll(s: EpollState, ops: seq<Operation>): EpollState
    decreases |ops|
  {
    if ops == [] then s else PerformAll(Perform(s, ops[0]).state, ops[1..])
  }

  lemma {:induction false} PerformAllAppend(s: EpollState, a: seq<Operation>, b: seq<Operation>)
    ensures PerformAll(s, a + b) == PerformAll(PerformAll(s, a), b)
    decreases |a|
  {
    if a == [] {
      assert a + b == b;
    } else {
      assert (a + b)[0] == a[0] && (a + b)[1..] == a[1..] + b;
      PerformAllAppend(Perform(s, a[0]).state, a[1..], b);
    }
  }

  // No descriptor is closed while the kernel watches it.
  predicate ClosedLast(s: EpollState, ops: seq<Operation>)
    decreases |ops|
  {
    ops == [] || ((ops[0].Closed? ==> ops[0].fd !in s.kernel) && ClosedLast(Perform(s, ops[0]).state, ops[1..]))
  }

  lemma {:induction false} RunCoherent(s: EpollState, ops: seq<Operation>)
    requires Coherent(s) && ClosedLast(s, ops)
    ensures Coherent(PerformAll(s, ops))
    decreases |ops|
  {
    if ops != [] {
      PerformKeeps(s, ops[0]);
      RunCoherent(Perform(s, ops[0]).state, ops[1..]);
    }
  }

  lemma {:induction false} RunAnyway(s: EpollState, ops: seq<Operation>)
    requires CoherentButClosed(s)
    ensures CoherentButClosed(PerformAll(s, ops))
    decreases |ops|
  {
    if ops != [] {
      PerformAnyway(s, ops[0]);
      RunAnyway(Perform(s, ops[0]).state, ops[1..]);
    }
  }

  // In every run in which descriptors are not closed while watched the interest set is exact.
  lemma EpollCoherence(edgeTriggered: bool, ops: seq<Operation>)
    requires ClosedLast(NewEpoll(edgeTriggered), ops)
    ensures Coherent(PerformAll(NewEpoll(edgeTriggered), ops))
  {
    RunCoherent(NewEpoll(edgeTriggered), ops);
  }

  // A descriptor number that comes back without removeDescriptor in between is stuck: adding it
  // again changes nothing, and every handler call on it throws until it is removed.
  lemma StaleDescriptor(s: EpollState, fd: int, eventType: bv32, handler: Handler)
    requires Coherent(s) && fd in s.kernel
    ensures var s1 := Perform(Perform(s, Closed(fd)).state, AddDescriptor(fd)).state;
      && Perform(s1, AddEventHandler(fd, eventType, handler)).threw
      && Perform(s1, RemoveEventHandler(fd, eventType)).threw
    ensures var s2 := Perform(Perform(Perform(s, Closed(fd)).state, RemoveDescriptor(fd)).state, AddDescriptor(fd)).state;
      Coherent(s2) && !Perform(s2, AddEventHandler(fd, eventType, handler)).threw
  {
    var s2 := Perform(Perform(Perform(s, Closed(fd)).state, RemoveDescriptor(fd)).state, AddDescriptor(fd)).state;
    assert Coherent(s2);
    PerformKeeps(s2, AddEventHandler(fd, eventType, handler));
  }

  // ---- The class ----

  class Epoll {
    const isEdgeTriggered: bool
    var monitoredFds: map<int, MonitoredDescriptor>
    var interest: map<int, bv32>         // the kernel's interest set

    function View(): EpollState
      reads this
    {
      EpollState(monitoredFds, interest, isEdgeTriggered)
    }

    constructor (isEdgeTriggered: bool)
      ensures View() == NewEpoll(isEdgeTriggered)
    {
      this.isEdgeTriggered := isEdgeTriggered;
      monitoredFds, interest := map[], map[];
    }

    method AddMonitored(fd: int)
      modifies this`monitoredFds
      ensures View() == Perform(old(View()), AddDescriptor(fd)).state
    {
      if fd !in monitoredFds {
        monitoredFds := monitoredFds[fd := NEW_DESCRIPTOR];
      }
    }

    method RemoveMonitored(fd: int)
      modifies this
      ensures View() == Perform(old(View()), RemoveDescriptor(fd)).state
    {
      if fd in monitoredFds {
        interest := interest - {fd};
        monitoredFds := monitoredFds - {fd};
      }
    }

    // The process closes a descriptor.
    method DescriptorClosed(fd: int)
      modifies this`interest
      ensures View() == Perform(old(View()), Closed(fd)).state
    {
      interest := interest - {fd};
    }

    // The two uses of epoll_ctl that can fail.
    method EpollCtlAdd(fd: int, events: bv32) returns (threw: bool)
      modifies this`interest
      ensures threw == (fd in old(interest))
      ensures interest == if threw then old(interest) else old(interest)[fd := events]
    {
      threw := fd in interest;
      if !threw {
        interest := interest[fd := events];
      }
    }

    method EpollCtlModify(fd: int, events: bv32) returns (threw: bool)
      modifies this`interest
      ensures threw == (fd !in old(interest))
      ensures interest == if threw then old(interest) else old(interest)[fd := events]
    {
      threw := fd !in interest;
      if !threw {
        interest := interest[fd := events];
      }
    }

    static method ResultingEvents(md: MonitoredDescriptor, isEdgeTriggered: bool) returns (resultingEvents: bv32)
      ensures resultingEvents == FullMask(md, isEdgeTriggered)
    {
      resultingEvents := 0;
      var firstEvt := true;
      for i := 0 to 6
        invariant resultingEvents == EventBits(md, i)
        invariant firstEvt ==> resultingEvents == 0
      {
        NextBit(md, i);
        var evt := ALL_EVENT_TYPES[i];
        if md.HasHandler(evt) {
          if firstEvt {
            resultingEvents := evt;
            firstEvt := false;
          } else {
            resultingEvents := resultingEvents | evt;
          }
        }
      }
      if isEdgeTriggered {
        resultingEvents := if firstEvt then EPOLLET else resultingEvents | EPOLLET;
      }
    }

    method ReloadEventHandlers(fd: int) returns (threw: bool)
      requires fd in monitoredFds
      modifies this
      ensures Outcome(View(), threw) == Reload(old(View()), fd)
    {
      var md := monitoredFds[fd];
      var events := ResultingEvents(md, isEdgeTriggered);
      if md.isInitialized {
        threw := EpollCtlModify(fd, events);
      } else {
        threw := EpollCtlAdd(fd, events);
        if !threw {
          monitoredFds := monitoredFds[fd := md.(isInitialized := true)];
        }
      }
    }

    // The loop of addEventHandler, on the descriptor it changes.
    static method SetEach(descriptor: MonitoredDescriptor, eventType: bv32, handler: Handler) returns (md: MonitoredDescriptor)
      ensures md == SetHandlers(descriptor, eventType, handler)
    {
      md := descriptor;
      for i := 0 to 6
        invariant md == SetFirst(descriptor, eventType, handler, i)
      {
        if eventType & ALL_EVENT_TYPES[i] != 0 {
          md := md.SetHandler(ALL_EVENT_TYPES[i], handler);
        }
      }
    }

    // The loop of removeEventHandler.
    static method ClearEach(descriptor: MonitoredDescriptor, eventType: bv32) returns (md: MonitoredDescriptor)
      ensures md == SetHandlers(descriptor, eventType, None)
    {
      md := descriptor;
      for i := 0 to 6
        invariant md == SetFirst(descriptor, eventType, None, i)
      {
        if md.HasHandler(eventType & ALL_EVENT_TYPES[i]) {
          md := md.SetHandler(eventType & ALL_EVENT_TYPES[i], None);
        }
      }
    }

    method AddEventHandlerTo(fd: int, eventType: bv32, handler: Handler) returns (threw: bool)
      modifies this
      ensures Outcome(View(), threw) == Perform(old(View()), AddEventHandler(fd, eventType, handler))
    {
      if fd !in monitoredFds {
        return true;
      }
      var md := SetEach(monitoredFds[fd], eventType, handler);
      monitoredFds := monitoredFds[fd := md];
      threw := ReloadEventHandlers(fd);
    }

    method RemoveEventHandlerFrom(fd: int, eventType: bv32) returns (threw: bool)
      modifies this
      ensures Outcome(View(), threw) == Perform(old(View()), RemoveEventHandler(fd, eventType))
    {
      if fd !in monitoredFds {
        return true;
      }
      var md := ClearEach(monitoredFds[fd], eventType);
      monitoredFds := monitoredFds[fd := md];
      threw := ReloadEventHandlers(fd);
    }
  }

}
