/**
 The bounded input ring of the machine: 256 slots of which 255 can be occupied, with an
 admission flag. Every operation is one section of the queue's own lock.
 */
module InputQueue {

  const CAPACITY := 256

  datatype PushResult = Pushed | NotAdmitted | Full

  class InputQueue<Event(0)> {
    var entries: array<Event>
    var head: nat       // next slot to fill
    var tail: nat       // oldest occupied slot
    var accepting: bool

    ghost predicate Valid()
      reads this`entries, this`head, this`tail
    {
      entries.Length == CAPACITY && head < CAPACITY && tail < CAPACITY
    }

    // How many slots are occupied.
    ghost function Count(): nat
      requires Valid()
      reads this`entries, this`head, this`tail
    {
      if tail <= head then head - tail else CAPACITY - tail + head
    }

    // The n events from a slot on.
    ghost function From(at: nat, n: nat): (r: seq<Event>)
      requires entries.Length == CAPACITY && at < CAPACITY
      reads this`entries, entries
      ensures |r| == n
      decreases n
    {
      if n == 0 then [] else [entries[at]] + From(if at == CAPACITY - 1 then 0 else at + 1, n - 1)
    }

    // The accepted events that have not been delivered, oldest first.
    ghost function Contents(): (r: seq<Event>)
      requires Valid()
      reads this`entries, this`head, this`tail, entries
      ensures |r| < CAPACITY
    {
      From(tail, Count())
    }

    lemma {:induction false} FromAt(at: nat, n: nat, i: nat)
      requires entries.Length == CAPACITY && at < CAPACITY && i < n <= CAPACITY
      ensures From(at, n)[i] == entries[if at + i < CAPACITY then at + i else at + i - CAPACITY]
      decreases n
    {
      if i > 0 { FromAt(if at == CAPACITY - 1 then 0 else at + 1, n - 1, i - 1); }
    }

    lemma ContentsAt()
      requires Valid()
      ensures forall i :: 0 <= i < Count() ==>
        Contents()[i] == entries[if tail + i < CAPACITY then tail + i else tail + i - CAPACITY]
    {
      forall i | 0 <= i < Count() ensures Contents()[i] == entries[if tail + i < CAPACITY then tail + i
        else tail + i - CAPACITY] {
        FromAt(tail, Count(), i);
      }
    }

    constructor ()
      ensures Valid() && fresh(entries) && Contents() == [] && !accepting
    {
      entries := new Event[CAPACITY];
      head, tail, accepting := 0, 0, false;
    }

    method Admit(open: bool)
      requires Valid()
      modifies this`accepting
      ensures Valid() && accepting == open && Contents() == old(Contents())
    {
      accepting := open;
    }

    // Closed admission and a full ring refuse the event and change nothing.
    method Push(event: Event) returns (result: PushResult)
      requires Valid()
      modifies this`head, entries
      ensures Valid()
      ensures result == (if !accepting then NotAdmitted else if |old(Contents())| == CAPACITY - 1 then Full else Pushed)
      ensures Contents() == (if result == Pushed then old(Contents()) + [event] else old(Contents()))
    {
      if !accepting { return NotAdmitted; }
      var next := (head + 1) % CAPACITY;
      if next == tail { return Full; }
      ghost var before, n := Contents(), Count();
      ContentsAt();
      entries[head] := event;
      head := next;
      ContentsAt();
      forall i | 0 <= i < Count() ensures Contents()[i] == (before + [event])[i] {
        if i < n { assert before[i] == old(entries[if tail + i < CAPACITY then tail + i else tail + i - CAPACITY]); }
      }
      assert Contents() == before + [event];
      result := Pushed;
    }

    // Takes the oldest event, if there is one.
    method Pop(fallback: Event) returns (found: bool, event: Event)
      requires Valid()
      modifies this`tail
      ensures Valid()
      ensures found == (old(Contents()) != [])
      ensures found ==> old(Contents()) == [event] + Contents()
      ensures !found ==> event == fallback && Contents() == []
    {
      if tail == head { return false, fallback; }
      event := entries[tail];
      tail := (tail + 1) % CAPACITY;
      found := true;
    }

    method Pending() returns (pending: bool)
      requires Valid()
      ensures pending == (Contents() != [])
    {
      pending := tail != head;
    }

    // Discards what an earlier run accepted; admission is left as it is.
    method Clear()
      requires Valid()
      modifies this`head, this`tail
      ensures Valid() && Contents() == []
    {
      head, tail := 0, 0;
    }
  }
}
