// src/linux_commons_lib/eventfd_queue/EventfdQueue.h: a locked queue whose eventfd wakes one consumer.
module EventfdQueues {
  // ---- Any number of producers and one edge-triggered consumer ----

  // The consumer sleeps in epoll_wait, has been handed an event, asks isEmpty, or is about to pop.
  datatype Phase = Waiting | Woken | Asking | Popping

  // event is the edge epoll has yet to report; pushed and popped record the history.
  datatype Protocol<T> = Protocol(data: seq<T>, counter: nat, event: bool, phase: Phase, pushed: seq<T>, popped: seq<T>)

  // Miss is an event that epoll_wait reports but the dispatch loop does not hand on.
  datatype Step<T> = Push(item: T) | Wake | Miss | ReadCounter | Ask | Pop

  function Init<T>(): Protocol<T> {
    Protocol([], 0, false, Waiting, [], [])
  }

  predicate Enabled<T>(s: Protocol<T>, step: Step<T>) {
    match step
    case Push(_) => true
    case Wake => s.phase == Waiting && s.event
    case Miss => s.phase == Waiting && s.event
    case ReadCounter => s.phase == Woken
    case Ask => s.phase == Asking
    case Pop => s.phase == Popping
  }

  // A pop of an empty queue is undefined in the source; here it would lose the history.
  function Apply<T>(s: Protocol<T>, step: Step<T>): Protocol<T> {
    match step
    case Push(x) => s.(data := s.data + [x], counter := s.counter + 1, event := true, pushed := s.pushed + [x])
    case Wake => s.(event := false, phase := Woken)
    case Miss => s.(event := false)
    case ReadCounter => s.(counter := 0, phase := Asking)
    case Ask => s.(phase := if s.data == [] then Waiting else Popping)
    case Pop => if s.data == [] then s.(phase := Asking)
                else s.(data := s.data[1..], popped := s.popped + [s.data[0]], phase := Asking)
  }

  // ---- The class, whose methods are the steps that change the queue ----

  // The protocol is in a state with this queue and counter.
  ghost predicate Shows<T>(s: Protocol<T>, data: seq<T>, counter: nat) {
    s.data == data && s.counter == counter
  }

  class EventfdQueue<T> {
    var data: seq<T>
    var counter: nat          // the value of the eventfd

    constructor ()
      ensures data == [] && counter == 0 && Shows(Init(), data, counter)
    {
      data := [];
      counter := 0;
    }

    method Push(item: T)
      modifies this
      ensures data == old(data) + [item] && counter == old(counter) + 1
      ensures forall s :: Shows(s, old(data), old(counter)) ==> Shows(Apply(s, Step.Push(item)), data, counter)
    {
      data := data + [item];
      counter := counter + 1;
    }

    method Pop() returns (item: T)
      requires data != []
      modifies this
      ensures [item] + data == old(data) && counter == old(counter)
      ensures forall s :: Shows(s, old(data), old(counter)) ==>
                Shows(Apply(s, Step.Pop), data, counter) && Apply(s, Step.Pop).popped == s.popped + [item]
    {
      item := data[0];
      data := data[1..];
    }

    method IsEmpty() returns (empty: bool)
      ensures empty <==> data == []
      ensures forall s :: Shows(s, data, counter) ==>
                Shows(Apply(s, Ask), data, counter) && (empty <==> Apply(s, Ask).phase == Waiting)
    {
      empty := |data| == 0;
    }

    // eventfd_read: takes the whole counter, or fails on zero and leaves it there.
    method Read() returns (value: nat)
      modifies this
      ensures value == old(counter) && counter == 0 && data == old(data)
      ensures forall s :: Shows(s, old(data), old(counter)) ==> Shows(Apply(s, ReadCounter), data, counter)
    {
      value := counter;
      counter := 0;
    }
  }

  // ---- Every interleaving ----

  predicate IsRun<T>(s: Protocol<T>, steps: seq<Step<T>>)
    decreases |steps|
  {
    steps == [] || (Enabled(s, steps[0]) && IsRun(Apply(s, steps[0]), steps[1..]))
  }

  function Final<T>(s: Protocol<T>, steps: seq<Step<T>>): Protocol<T>
    decreases |steps|
  {
    if steps == [] then s else Final(Apply(s, steps[0]), steps[1..])
  }

  // Nothing is lost or reordered, a pop finds an item, and while the consumer sleeps with items
  // in the queue the counter is positive.
  ghost predicate Safe<T(!new)>(s: Protocol<T>) {
    && s.pushed == s.popped + s.data
    && (s.phase == Popping ==> s.data != [])
    && (s.phase == Waiting && s.data != [] ==> s.counter > 0)
  }

  // Items wait for a consumer that sleeps and will not be woken.
  ghost predicate Asleep<T(!new)>(s: Protocol<T>) {
    s.phase == Waiting && s.data != [] && !s.event
  }

  lemma StepKeeps<T(!new)>(s: Protocol<T>, step: Step<T>)
    requires Safe(s) && Enabled(s, step)
    ensures Safe(Apply(s, step))
  {
    match step
    case Push(x) =>
      assert s.popped + (s.data + [x]) == (s.popped + s.data) + [x];
    case Pop =>
      assert s.popped + s.data == (s.popped + [s.data[0]]) + s.data[1..];
    case _ =>
  }

  lemma {:induction false} RunSafe<T(!new)>(s: Protocol<T>, steps: seq<Step<T>>)
    requires Safe(s) && IsRun(s, steps)
    ensures Safe(Final(s, steps))
    decreases |steps|
  {
    if steps != [] {
      StepKeeps(s, steps[0]);
      RunSafe(Apply(s, steps[0]), steps[1..]);
    }
  }

  // Every interleaving of producers, the consumer and missed events, from the empty queue.
  lemma QueueProtocol<T(!new)>(steps: seq<Step<T>>)
    requires IsRun(Init(), steps)
    ensures Safe(Final(Init(), steps))
  {
    RunSafe(Init<T>(), steps);
  }

  // Only a missed event leaves items asleep, and it does so whenever there are any; the next push
  // wakes the consumer again.
  lemma AsleepExact<T(!new)>(s: Protocol<T>, step: Step<T>)
    requires Safe(s) && Enabled(s, step)
    ensures Asleep(Apply(s, step)) <==> step.Miss? && s.data != []
  {
  }

  // So nothing is ever asleep in a run that misses no event.
  lemma {:induction false} NeverAsleep<T(!new)>(s: Protocol<T>, steps: seq<Step<T>>)
    requires Safe(s) && !Asleep(s) && IsRun(s, steps) && Miss !in steps
    ensures Safe(Final(s, steps)) && !Asleep(Final(s, steps))
    decreases |steps|
  {
    if steps != [] {
      StepKeeps(s, steps[0]);
      AsleepExact(s, steps[0]);
      NeverAsleep(Apply(s, steps[0]), steps[1..]);
    }
  }

  predicate ByConsumer<T>(steps: seq<Step<T>>) {
    forall i :: 0 <= i < |steps| ==> !steps[i].Push? && !steps[i].Miss?
  }

  // The consumer, left alone, can deliver everything pushed so far, in order.
  ghost predicate Delivers<T(!new)>(s: Protocol<T>) {
    exists steps :: IsRun(s, steps) && ByConsumer(steps) && Final(s, steps).data == [] && Final(s, steps).popped == s.pushed
  }

  lemma DeliversStep<T(!new)>(s: Protocol<T>, step: Step<T>)
    requires Enabled(s, step) && !step.Push? && !step.Miss? && Delivers(Apply(s, step))
    ensures Delivers(s)
  {
    var next := Apply(s, step);
    var rest :| IsRun(next, rest) && ByConsumer(rest) && Final(next, rest).data == [] && Final(next, rest).popped == next.pushed;
    var steps := [step] + rest;
    assert steps[1..] == rest;
    assert IsRun(s, steps) && ByConsumer(steps) && Final(s, steps) == Final(next, rest);
  }

  function Distance(p: Phase): nat {
    match p
    case Waiting => 3
    case Woken => 2
    case Asking => 1
    case Popping => 0
  }

  lemma {:induction false} AwakeDelivers<T(!new)>(s: Protocol<T>)
    requires Safe(s) && !Asleep(s)
    ensures Delivers(s)
    decreases |s.data|, Distance(s.phase)
  {
    if s.data == [] {
      assert s.popped + [] == s.popped;
      assert IsRun(s, []) && ByConsumer<T>([]) && Final(s, []) == s;
    } else {
      var step := match s.phase case Waiting => Wake case Woken => ReadCounter case Asking => Ask case Popping => Pop;
      StepKeeps(s, step);
      AsleepExact(s, step);
      AwakeDelivers(Apply(s, step));
      DeliversStep(s, step);
    }
  }

  // From any safe state the consumer alone can deliver exactly if no item is asleep.
  lemma DeliversIff<T(!new)>(s: Protocol<T>)
    requires Safe(s)
    ensures Delivers(s) <==> !Asleep(s)
  {
    if !Asleep(s) {
      AwakeDelivers(s);
    } else {
      forall steps | IsRun(s, steps) && ByConsumer(steps)
        ensures Final(s, steps).data != []
      {
      }
    }
  }
}
