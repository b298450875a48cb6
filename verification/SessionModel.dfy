/**
 The event queue of a session as a value: an unbounded FIFO, the failed deliveries behind the two
 latches, and the event that wakes the consumer. What the host grants is part of each operation.
 */
module SessionModel {

  datatype Status = Ok | NoMemory | IoError

  // What comes out of the queue: an event, or the first failed delivery of its class since the
  // latch was last emptied.
  datatype Item<E> = Delivered(event: E) | KvmFailed(event: E, status: Status) | ControlFailed(event: E, status: Status)

  datatype Taken<E> = Nothing | Something(item: Item<E>)

  const INITIAL_CAPACITY := 64

  // What the host grants during a push: a larger ring if one is needed, the signal of the push,
  // and the signal of the latch if the push failed.
  datatype Grants = Grants(memory: bool, signal: bool, latchSignal: bool)

  datatype View<E> = View(fifo: seq<E>, kvm: seq<Item<E>>, control: seq<Item<E>>, available: bool, capacity: nat)

  datatype Op<E> = KvmPush(event: E, grants: Grants) | ControlPush(event: E, grants: Grants) | Take

  function Start<E>(): View<E> { View([], [], [], false, INITIAL_CAPACITY) }

  predicate Empty<E>(v: View<E>) { v.fifo == [] && v.kvm == [] && v.control == [] }

  // emulator_session_queue_push.
  function PushStatus<E>(v: View<E>, g: Grants): Status {
    if |v.fifo| == v.capacity && !g.memory then NoMemory else if !g.signal then IoError else Ok
  }

  function Push<E>(v: View<E>, event: E, g: Grants): View<E> {
    var w := if |v.fifo| == v.capacity && g.memory then v.(capacity := 2 * v.capacity) else v;
    if PushStatus(v, g) == Ok then w.(fifo := v.fifo + [event], available := true) else w
  }

  // Each class of events has its latch, which is signalled too.
  function PushKvm<E>(v: View<E>, event: E, g: Grants): View<E> {
    var w, status := Push(v, event, g), PushStatus(v, g);
    if status == Ok then w else w.(kvm := v.kvm + [KvmFailed(event, status)], available := v.available || g.latchSignal)
  }

  function PushControl<E>(v: View<E>, event: E, g: Grants): View<E> {
    var w, status := Push(v, event, g), PushStatus(v, g);
    if status == Ok then w
      else w.(control := v.control + [ControlFailed(event, status)], available := v.available || g.latchSignal)
  }

  // What a take would return if it is woken.
  function Front<E>(v: View<E>): Taken<E> {
    if v.fifo != [] then Something(Delivered(v.fifo[0]))
    else if v.kvm != [] then Something(v.kvm[0])
    else if v.control != [] then Something(v.control[0])
    else Nothing
  }

  // emulator_session_queue_take: nothing without the signal, which is reset with the last item.
  function TakeOne<E>(v: View<E>): View<E> {
    if !v.available then v
    else
      var w := if v.fifo != [] then v.(fifo := v.fifo[1..]) else if v.kvm != [] then v.(kvm := [])
        else v.(control := []);
      w.(available := !Empty(w))
  }

  function Output<E>(v: View<E>): Taken<E> { if v.available then Front(v) else Nothing }

  function Step<E>(v: View<E>, op: Op<E>): View<E> {
    match op
    case KvmPush(event, g) => PushKvm(v, event, g)
    case ControlPush(event, g) => PushControl(v, event, g)
    case Take => TakeOne(v)
  }

  function Run<E>(ops: seq<Op<E>>): View<E> {
    if ops == [] then Start() else Step(Run(ops[..|ops| - 1]), ops[|ops| - 1])
  }

  // What a run puts out, operation by operation.
  function Outputs<E>(ops: seq<Op<E>>): seq<Taken<E>> {
    if ops == [] then []
    else Outputs(ops[..|ops| - 1]) + [if ops[|ops| - 1].Take? then Output(Run(ops[..|ops| - 1])) else Nothing]
  }

  // ---------- nothing is lost silently ----------

  // What one operation does to the FIFO.
  function AcceptedBy<E>(v: View<E>, op: Op<E>): seq<E> {
    if op.Take? || PushStatus(v, op.grants) != Ok then [] else [op.event]
  }

  function DeliveredBy<E>(v: View<E>, op: Op<E>): seq<E> {
    if op.Take? && v.available && v.fifo != [] then [v.fifo[0]] else []
  }

  // The events accepted in a run, and those delivered.
  function Accepted<E>(ops: seq<Op<E>>): seq<E> {
    if ops == [] then [] else Accepted(ops[..|ops| - 1]) + AcceptedBy(Run(ops[..|ops| - 1]), ops[|ops| - 1])
  }

  function Deliveries<E>(ops: seq<Op<E>>): seq<E> {
    if ops == [] then [] else Deliveries(ops[..|ops| - 1]) + DeliveredBy(Run(ops[..|ops| - 1]), ops[|ops| - 1])
  }

  lemma FifoStep<E>(v: View<E>, op: Op<E>)
    ensures v.fifo + AcceptedBy(v, op) == DeliveredBy(v, op) + Step(v, op).fifo
  {
  }

  // In every run the accepted events come out in order, each once: those delivered so far are
  // followed by those still queued.
  lemma {:induction false} FirstInFirstOut<E>(ops: seq<Op<E>>)
    ensures Accepted(ops) == Deliveries(ops) + Run(ops).fifo
  {
    if ops != [] {
      var n := |ops| - 1;
      FirstInFirstOut(ops[..n]);
      FifoStep(Run(ops[..n]), ops[n]);
      Regroup(Deliveries(ops[..n]), Run(ops[..n]).fifo, AcceptedBy(Run(ops[..n]), ops[n]),
        DeliveredBy(Run(ops[..n]), ops[n]), Run(ops).fifo);
    }
  }

  // The events among some outputs.
  function EventsIn<E>(outputs: seq<Taken<E>>): seq<E> {
    if outputs == [] then []
    else
      var n := |outputs| - 1;
      EventsIn(outputs[..n]) + if outputs[n].Something? && outputs[n].item.Delivered? then [outputs[n].item.event]
        else []
  }

  lemma EventsGrow<E>(outputs: seq<Taken<E>>, taken: Taken<E>)
    ensures EventsIn(outputs + [taken]) == EventsIn(outputs)
      + if taken.Something? && taken.item.Delivered? then [taken.item.event] else []
  {
    assert (outputs + [taken])[..|outputs|] == outputs;
  }

  // They are what is put out: in every run the accepted events are those put out so far followed
  // by those still queued.
  lemma {:induction false} PutOutInOrder<E>(ops: seq<Op<E>>)
    ensures Accepted(ops) == EventsIn(Outputs(ops)) + Run(ops).fifo
  {
    FirstInFirstOut(ops);
    DeliveriesAreOutputs(ops);
  }

  lemma {:induction false} DeliveriesAreOutputs<E>(ops: seq<Op<E>>)
    ensures EventsIn(Outputs(ops)) == Deliveries(ops)
  {
    if ops != [] {
      var n := |ops| - 1;
      DeliveriesAreOutputs(ops[..n]);
      LatchesHoldFaults(ops[..n]);
      EventsGrow(Outputs(ops[..n]), if ops[n].Take? then Output(Run(ops[..n])) else Nothing);
    }
  }

  lemma Regroup<E>(a: seq<E>, b: seq<E>, c: seq<E>, d: seq<E>, e: seq<E>)
    requires b + c == d + e
    ensures a + b + c == a + d + e
  {
    assert a + b + c == a + (b + c) && a + d + e == a + (d + e);
  }

  // A failed push leaves its class's first fault latched, and a fault is taken only once the FIFO
  // has drained.
  lemma FaultsStay<E>(v: View<E>, op: Op<E>)
    ensures op.KvmPush? && PushStatus(v, op.grants) != Ok ==>
      Step(v, op).kvm != [] && Step(v, op).fifo == v.fifo && (v.kvm == [] ==> Step(v, op).kvm[0].event == op.event)
    ensures op.ControlPush? && PushStatus(v, op.grants) != Ok ==>
      Step(v, op).control != [] && Step(v, op).fifo == v.fifo
        && (v.control == [] ==> Step(v, op).control[0].event == op.event)
    ensures v.kvm != [] ==>
      (Step(v, op).kvm != [] && Step(v, op).kvm[0] == v.kvm[0])
      || (op.Take? && v.fifo == [] && Output(v) == Something(v.kvm[0]))
    ensures v.control != [] ==>
      (Step(v, op).control != [] && Step(v, op).control[0] == v.control[0])
        || (op.Take? && v.fifo == [] && v.kvm == [] && Output(v) == Something(v.control[0]))
  {
  }

  // The two classes of events with their latches.
  datatype Class = KvmClass | ControlClass

  function Latch<E>(v: View<E>, c: Class): seq<Item<E>> { if c.KvmClass? then v.kvm else v.control }

  predicate IsFault<E>(item: Item<E>, c: Class) { if c.KvmClass? then item.KvmFailed? else item.ControlFailed? }

  predicate Fails<E>(v: View<E>, op: Op<E>, c: Class) {
    (if c.KvmClass? then op.KvmPush? else op.ControlPush?) && PushStatus(v, op.grants) != Ok
  }

  function FaultOf<E>(v: View<E>, op: Op<E>, c: Class): Item<E>
    requires Fails(v, op, c)
  {
    if c.KvmClass? then KvmFailed(op.event, PushStatus(v, op.grants))
      else ControlFailed(op.event, PushStatus(v, op.grants))
  }

  // Each latch holds a fault of its class.
  predicate FaultsInPlace<E>(v: View<E>) {
    (v.kvm != [] ==> v.kvm[0].KvmFailed?) && (v.control != [] ==> v.control[0].ControlFailed?)
  }

  lemma {:induction false} LatchesHoldFaults<E>(ops: seq<Op<E>>)
    ensures FaultsInPlace(Run(ops))
  {
    if ops != [] { LatchesHoldFaults(ops[..|ops| - 1]); }
  }

  // The faults of a class among some outputs.
  function FaultsIn<E>(outputs: seq<Taken<E>>, c: Class): seq<Item<E>> {
    if outputs == [] then []
    else
      var n := |outputs| - 1;
      FaultsIn(outputs[..n], c) + if outputs[n].Something? && IsFault(outputs[n].item, c) then [outputs[n].item] else []
  }

  lemma FaultsGrow<E>(outputs: seq<Taken<E>>, taken: Taken<E>, c: Class)
    ensures FaultsIn(outputs + [taken], c) == FaultsIn(outputs, c)
      + if taken.Something? && IsFault(taken.item, c) then [taken.item] else []
  {
    assert (outputs + [taken])[..|outputs|] == outputs;
  }

  // The failures of a class that find all the reported ones taken.
  function FirstFailures<E>(ops: seq<Op<E>>, c: Class): seq<Item<E>> {
    if ops == [] then []
    else
      var n := |ops| - 1;
      var before, v := FirstFailures(ops[..n], c), Run(ops[..n]);
      before + if Fails(v, ops[n], c) && |before| == |FaultsIn(Outputs(ops[..n]), c)| then [FaultOf(v, ops[n], c)]
        else []
  }

  function First<T>(s: seq<T>): seq<T> { if s == [] then [] else [s[0]] }

  // What one operation adds to a latch, and what it takes from it.
  function LatchedBy<E>(v: View<E>, op: Op<E>, c: Class): seq<Item<E>> {
    if Fails(v, op, c) && Latch(v, c) == [] then [FaultOf(v, op, c)] else []
  }

  function TakenBy<E>(v: View<E>, op: Op<E>, c: Class): seq<Item<E>> {
    if op.Take? && Output(v).Something? && IsFault(Output(v).item, c) then [Output(v).item] else []
  }

  lemma TakeStep<E>(v: View<E>, c: Class)
    requires FaultsInPlace(v)
    ensures First(Latch(v, c)) == TakenBy(v, Take, c) + First(Latch(TakeOne(v), c))
  {
  }

  lemma PushStep<E>(v: View<E>, op: Op<E>, c: Class)
    requires !op.Take?
    ensures First(Latch(v, c)) + LatchedBy(v, op, c) == First(Latch(Step(v, op), c))
  {
  }

  lemma LatchStep<E>(v: View<E>, op: Op<E>, c: Class)
    requires FaultsInPlace(v)
    ensures First(Latch(v, c)) + LatchedBy(v, op, c) == TakenBy(v, op, c) + First(Latch(Step(v, op), c))
  {
    if op.Take? { TakeStep(v, c); } else { PushStep(v, op, c); }
  }

  // In every run the faults of a class that were taken, followed by the one that is latched, are
  // the first failures: each failure that found the earlier ones taken is reported, once, in order
  // and with its own status, and it stays latched until it is taken.
  lemma {:induction false} FaultsAreReported<E>(ops: seq<Op<E>>, c: Class)
    ensures FaultsIn(Outputs(ops), c) + First(Latch(Run(ops), c)) == FirstFailures(ops, c)
  {
    if ops != [] {
      var n := |ops| - 1;
      var v, taken := Run(ops[..n]), if ops[n].Take? then Output(Run(ops[..n])) else Nothing;
      FaultsAreReported(ops[..n], c);
      LatchesHoldFaults(ops[..n]);
      FaultsGrow(Outputs(ops[..n]), taken, c);
      LatchStep(v, ops[n], c);
      Regroup(FaultsIn(Outputs(ops[..n]), c), First(Latch(v, c)), LatchedBy(v, ops[n], c), TakenBy(v, ops[n], c),
        First(Latch(Run(ops), c)));
    }
  }

  // The events pushed in a run.
  function Pushed<E>(ops: seq<Op<E>>): seq<E> {
    if ops == [] then []
    else Pushed(ops[..|ops| - 1]) + if ops[|ops| - 1].Take? then [] else [ops[|ops| - 1].event]
  }

  // Where everything is granted, every pushed event is accepted, in order, and nothing is latched,
  // however many there are.
  lemma {:induction false} GrantedIsAccepted<E>(ops: seq<Op<E>>)
    requires forall i :: 0 <= i < |ops| && !ops[i].Take? ==> ops[i].grants == Grants(true, true, true)
    ensures Accepted(ops) == Pushed(ops) && Run(ops).kvm == [] && Run(ops).control == []
  {
    if ops != [] { GrantedIsAccepted(ops[..|ops| - 1]); }
  }

  // ---------- the signal ----------

  // A push that signals: it is accepted, or its latch is signalled.
  predicate Signals<E>(v: View<E>, op: Op<E>) { !op.Take? && (PushStatus(v, op.grants) == Ok || op.grants.latchSignal) }

  // A latch that is set on an empty queue without its signal.
  predicate Strands<E>(v: View<E>, op: Op<E>) { !op.Take? && !Signals(v, op) && Empty(v) }

  // No signal has followed such a latch.
  ghost predicate Stranded<E>(ops: seq<Op<E>>) {
    exists i :: 0 <= i < |ops| && StrandedAt(ops, i)
  }

  ghost predicate StrandedAt<E>(ops: seq<Op<E>>, i: nat)
    requires i < |ops|
  {
    Strands(Run(ops[..i]), ops[i]) && forall j :: i < j < |ops| ==> !SignalsAt(ops, j)
  }

  ghost predicate SignalsAt<E>(ops: seq<Op<E>>, j: nat)
    requires j < |ops|
  {
    Signals(Run(ops[..j]), ops[j])
  }

  lemma StrandedAtGrows<E>(ops: seq<Op<E>>, n: nat, i: nat)
    requires i < n && |ops| == n + 1
    ensures StrandedAt(ops, i) <==> StrandedAt(ops[..n], i) && !Signals(Run(ops[..n]), ops[n])
  {
    assert ops[..n][..i] == ops[..i];
    forall j | i < j < n ensures SignalsAt(ops[..n], j) == SignalsAt(ops, j) {
      assert ops[..n][..j] == ops[..j];
    }
    assert SignalsAt(ops, n) == Signals(Run(ops[..n]), ops[n]);
  }

  lemma StrandedGrows<E>(ops: seq<Op<E>>, n: nat)
    requires |ops| == n + 1
    ensures Stranded(ops) <==> (Stranded(ops[..n]) && !Signals(Run(ops[..n]), ops[n])) || Strands(Run(ops[..n]), ops[n])
  {
    forall i | 0 <= i < n ensures StrandedAt(ops, i) <==> StrandedAt(ops[..n], i) && !Signals(Run(ops[..n]), ops[n]) {
      StrandedAtGrows(ops, n, i);
    }
    assert StrandedAt(ops, n) <==> Strands(Run(ops[..n]), ops[n]);
  }

  // In every run the event is never signalled for nothing, and it is signalled exactly while
  // something can be taken, if and only if no latch set on an empty queue without its signal has
  // gone unfollowed by a signal.
  lemma {:induction false} SignalIsExact<E>(ops: seq<Op<E>>)
    ensures var v := Run(ops);
      && (v.available ==> !Empty(v))
      && ((v.available <==> !Empty(v)) <==> !Stranded(ops))
  {
    if ops != [] {
      var n := |ops| - 1;
      SignalIsExact(ops[..n]);
      StrandedGrows(ops, n);
    }
  }

  // In particular it is exact as long as every latch can be signalled.
  lemma SignalsSuffice<E>(ops: seq<Op<E>>)
    requires forall i :: 0 <= i < |ops| && !ops[i].Take? ==> ops[i].grants.latchSignal
    ensures Run(ops).available <==> !Empty(Run(ops))
  {
    SignalIsExact(ops);
  }

  // The failing input: a push into an empty queue whose signal and whose latch's signal fail
  // leaves a fault that no take returns.
  lemma StrandedFault<E>(event: E, memory: bool)
    ensures var v := Run([KvmPush(event, Grants(memory, false, false))]);
      v.kvm == [KvmFailed(event, IoError)] && !v.available && Output(v) == Nothing && TakeOne(v) == v
  {
    assert [KvmPush(event, Grants(memory, false, false))][..0] == [];
  }
}
