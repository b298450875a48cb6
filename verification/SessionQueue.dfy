/**
 The event queue of a session in place: a ring that doubles when it is full, two latches, and an
 event, against the queue as a value.
 */
module SessionQueue {
  import opened SessionModel

  datatype Latch<E> = Clear | Pending(fault: Item<E>)

  lemma PlaceIsModulo(x: nat, n: nat)
    requires 0 < n && x < 2 * n
    ensures x % n == if x < n then x else x - n
  {
    var q, r := x / n, x % n;
    assert x == n * q + r;
    assert q >= 2 ==> n * q >= n * 2;
    assert q == 0 ==> n * q == 0;
    assert q == 1 ==> n * q == n;
  }

  // A place in a ring, as the program computes it.
  method Place(x: nat, n: nat) returns (p: nat)
    requires 0 < n && x < 2 * n
    ensures p == if x < n then x else x - n
  {
    PlaceIsModulo(x, n);
    p := x % n;
  }

  class SessionQueue<E(0)> {
    var events: array<E>
    var first: nat
    var count: nat
    var kvmFault: Latch<E>
    var controlFault: Latch<E>
    var available: bool
    ghost var LostKvm: seq<Item<E>>  // failed deliveries since the latch was emptied
    ghost var LostControl: seq<Item<E>>

    ghost predicate Ring()
      reads this`events, this`first, this`count
    {
      0 < events.Length && first < events.Length && count <= events.Length
    }

    // The n events from a place on.
    ghost function From(at: nat, n: nat): (r: seq<E>)
      requires at < events.Length
      reads this`events, events
      ensures |r| == n
      decreases n
    {
      if n == 0 then [] else [events[at]] + From(if at + 1 == events.Length then 0 else at + 1, n - 1)
    }

    ghost function Contents(): (r: seq<E>)
      requires Ring()
      reads this`events, this`first, this`count, events
      ensures |r| == count
    {
      From(first, count)
    }

    lemma {:induction false} FromAt(at: nat, n: nat, i: nat)
      requires at < events.Length && i < n <= events.Length
      ensures From(at, n)[i] == events[if at + i < events.Length then at + i else at + i - events.Length]
      decreases n
    {
      if i > 0 { FromAt(if at + 1 == events.Length then 0 else at + 1, n - 1, i - 1); }
    }

    lemma ContentsAt()
      requires Ring()
      ensures forall i :: 0 <= i < count ==>
        Contents()[i] == events[if first + i < events.Length then first + i else first + i - events.Length]
    {
      forall i | 0 <= i < count ensures Contents()[i] == events[if first + i < events.Length then first + i
        else first + i - events.Length] {
        FromAt(first, count, i);
      }
    }

    // A latch holds the first failed delivery, and is clear exactly if there was none.
    ghost predicate Holds(latch: Latch<E>, lost: seq<Item<E>>) {
      if lost == [] then latch == Clear else latch == Pending(lost[0])
    }

    ghost predicate Valid()
      reads this
    {
      Ring() && Holds(kvmFault, LostKvm) && Holds(controlFault, LostControl)
    }

    ghost function Value(): View<E>
      requires Valid()
      reads this, events
    {
      View(Contents(), LostKvm, LostControl, available, events.Length)
    }

    // emulator_session_queue_initialize.
    constructor ()
      ensures Valid() && Value() == Start() && fresh(events)
    {
      events := new E[INITIAL_CAPACITY];
      first, count, kvmFault, controlFault, available := 0, 0, Clear, Clear, false;
      LostKvm, LostControl := [], [];
    }

    // Copies the events to the start of a larger array.
    method CopyTo(expanded: array<E>)
      requires Ring() && expanded != events && count <= expanded.Length
      modifies expanded
      ensures expanded[..count] == Contents()
    {
      ghost var all := Contents();
      ContentsAt();
      var index := 0;
      while index < count
        invariant index <= count && forall j :: 0 <= j < index ==> expanded[j] == all[j]
      {
        var p := Place(first + index, events.Length);
        expanded[index] := events[p];
        index := index + 1;
      }
    }

    // Doubling a full ring keeps the events and their order, wherever in the ring they start.
    method MakeRoom(memory: bool) returns (ok: bool)
      requires Ring()
      modifies this`events, this`first
      ensures Ring() && Contents() == old(Contents()) && (events == old(events) || fresh(events))
      ensures ok == (count < old(events.Length) || memory) && (ok ==> count < events.Length)
      ensures events.Length == if count == old(events.Length) && memory then 2 * old(events.Length)
        else old(events.Length)
    {
      if count == events.Length {
        if !memory { return false; }
        var expanded := new E[2 * events.Length];
        CopyTo(expanded);
        events, first := expanded, 0;
        ContentsAt();
      }
      ok := true;
    }

    // emulator_session_queue_push.
    method PushEvent(event: E, g: Grants) returns (status: Status)
      requires Valid()
      modifies this`events, this`first, this`count, this`available, events
      ensures Valid() && (events == old(events) || fresh(events))
      ensures status == PushStatus(old(Value()), g) && Value() == Push(old(Value()), event, g)
    {
      var room := MakeRoom(g.memory);
      if !room { return NoMemory; }
      if !g.signal { return IoError; }
      available := true;
      Append(event);
      status := Ok;
    }

    method Append(event: E)
      requires Ring() && count < events.Length
      modifies this`count, events
      ensures Ring() && Contents() == old(Contents()) + [event]
    {
      var p := Place(first + count, events.Length);
      ContentsAt();
      ghost var before := Contents();
      events[p] := event;
      count := count + 1;
      ContentsAt();
      forall i | 0 <= i < count ensures Contents()[i] == (before + [event])[i] {
        if i < count - 1 {
          assert before[i] == old(events[if first + i < events.Length then first + i else first + i - events.Length]);
        }
      }
      assert Contents() == before + [event];
    }

    // emulator_session_queue_latch_failure for the KVM class: the first fault stays, and the
    // result of the signal is not looked at.
    method LatchKvm(fault: Item<E>, signal: bool)
      requires Valid()
      modifies this`kvmFault, this`available, this`LostKvm
      ensures Valid() && LostKvm == old(LostKvm) + [fault] && available == (old(available) || signal)
    {
      if kvmFault.Clear? { kvmFault := Pending(fault); }
      LostKvm := LostKvm + [fault];
      if signal { available := true; }
    }

    // The same for the control class.
    method LatchControl(fault: Item<E>, signal: bool)
      requires Valid()
      modifies this`controlFault, this`available, this`LostControl
      ensures Valid() && LostControl == old(LostControl) + [fault] && available == (old(available) || signal)
    {
      if controlFault.Clear? { controlFault := Pending(fault); }
      LostControl := LostControl + [fault];
      if signal { available := true; }
    }

    // emulator_session_queue_push_kvm_for_run.
    method PushKvmEvent(event: E, g: Grants) returns (ok: bool)
      requires Valid()
      modifies this, events
      ensures Valid() && (events == old(events) || fresh(events))
      ensures ok == (PushStatus(old(Value()), g) == Ok) && Value() == Step(old(Value()), KvmPush(event, g))
    {
      var status := PushEvent(event, g);
      ok := status == Ok;
      if !ok { LatchKvm(KvmFailed(event, status), g.latchSignal); }
    }

    // emulator_session_queue_push_required.
    method PushRequired(event: E, g: Grants) returns (ok: bool)
      requires Valid()
      modifies this, events
      ensures Valid() && (events == old(events) || fresh(events))
      ensures ok == (PushStatus(old(Value()), g) == Ok) && Value() == Step(old(Value()), ControlPush(event, g))
    {
      var status := PushEvent(event, g);
      ok := status == Ok;
      if !ok { LatchControl(ControlFailed(event, status), g.latchSignal); }
    }

    // emulator_session_queue_take.
    method TakeItem() returns (taken: Taken<E>)
      requires Valid()
      modifies this
      ensures Valid() && events == old(events)
      ensures taken == Output(old(Value())) && Value() == Step(old(Value()), Take)
    {
      taken := Nothing;
      if !available { return; }
      if count != 0 {
        var event := RemoveFirst();
        taken := Something(Delivered(event));
      } else if kvmFault.Pending? {
        taken := Something(kvmFault.fault);
        kvmFault, LostKvm := Clear, [];
      } else if controlFault.Pending? {
        taken := Something(controlFault.fault);
        controlFault, LostControl := Clear, [];
      }
      if count == 0 && kvmFault.Clear? && controlFault.Clear? { available := false; }
    }

    method RemoveFirst() returns (event: E)
      requires Ring() && count > 0
      modifies this`first, this`count
      ensures Ring() && old(Contents()) == [event] + Contents()
    {
      event := events[first];
      first := Place(first + 1, events.Length);
      count := count - 1;
    }
  }

  method Perform<E(0)>(q: SessionQueue<E>, op: Op<E>) returns (taken: Taken<E>)
    requires q.Valid()
    modifies q, q.events
    ensures q.Valid() && (q.events == old(q.events) || fresh(q.events))
    ensures q.Value() == Step(old(q.Value()), op) && taken == if op.Take? then Output(old(q.Value())) else Nothing
  {
    taken := Nothing;
    match op {
      case KvmPush(event, g) =>
        var ok := q.PushKvmEvent(event, g);
      case ControlPush(event, g) =>
        var ok := q.PushRequired(event, g);
      case Take =>
        taken := q.TakeItem();
    }
  }

  lemma RunMore<E>(ops: seq<Op<E>>, n: nat)
    requires n < |ops|
    ensures Run(ops[..n + 1]) == Step(Run(ops[..n]), ops[n])
    ensures Outputs(ops[..n + 1]) == Outputs(ops[..n]) + [if ops[n].Take? then Output(Run(ops[..n])) else Nothing]
  {
    assert ops[..n + 1][..n] == ops[..n];
  }

  // Any run of the queue in place puts out what the run of the value does.
  method RunQueue<E(0)>(ops: seq<Op<E>>) returns (outputs: seq<Taken<E>>)
    ensures outputs == Outputs(ops)
  {
    var q := new SessionQueue();
    outputs := [];
    var n := 0;
    while n < |ops|
      invariant n <= |ops| && fresh(q) && fresh(q.events) && q.Valid()
      invariant q.Value() == Run(ops[..n]) && outputs == Outputs(ops[..n])
    {
      RunMore(ops, n);
      var taken := Perform(q, ops[n]);
      outputs := outputs + [taken];
      n := n + 1;
    }
    assert ops[..n] == ops;
  }
}
