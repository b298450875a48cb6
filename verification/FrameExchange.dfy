/**
 The four-slot latest-wins frame exchange: one producer writes a slot outside the lock and
 publishes it, one consumer takes, finishes, redraws or detaches. Each operation is one
 section of the exchange lock.
 */
module FrameExchange {

  const SLOTS := 4

  // What a slot contains: nothing yet, a frame of the producer, or a payload handed to retire.
  datatype Frame = Blank | Image(id: nat) | Retired

  // A role points to a slot or to nothing.
  datatype Role = Null | Slot(index: nat)

  datatype Exchange = Exchange(
    slots: seq<Frame>, writer: Role, pending: Role, processing: Role, displayed: Role, latest: Role)

  const INITIAL := Exchange([Blank, Blank, Blank, Blank], Slot(0), Null, Null, Null, Null)

  // The slot is in use by the consumer or queued for it.
  predicate Unavailable(x: Exchange, i: nat) {
    x.pending == Slot(i) || x.processing == Slot(i) || x.displayed == Slot(i)
  }

  predicate Held(x: Exchange, i: nat) { x.writer == Slot(i) || Unavailable(x, i) }

  // retire is called for every slot that no role holds.
  function RetireFree(x: Exchange): (r: Exchange)
    requires |x.slots| == SLOTS
    ensures |r.slots| == SLOTS && r == x.(slots := r.slots)
    ensures forall i :: 0 <= i < SLOTS ==> r.slots[i] == if Held(x, i) then x.slots[i] else Retired
  {
    x.(slots := seq(SLOTS, i requires 0 <= i < SLOTS => if Held(x, i) then x.slots[i] else Retired))
  }

  // The first slot from i on that the producer may write, if any.
  function FirstFree(x: Exchange, i: nat): (r: Role)
    requires i <= SLOTS
    ensures r.Slot? ==> i <= r.index < SLOTS && !Unavailable(x, r.index)
    ensures r.Null? ==> forall j :: i <= j < SLOTS ==> Unavailable(x, j)
    decreases SLOTS - i
  {
    if i == SLOTS then Null else if !Unavailable(x, i) then Slot(i) else FirstFree(x, i + 1)
  }

  function Publish(x: Exchange): Exchange
    requires |x.slots| == SLOTS
  {
    var y := RetireFree(x.(latest := x.writer, pending := x.writer, writer := Null));
    y.(writer := FirstFree(y, 0))
  }

  // The exchange after a take, the taken frame, and the frame displayed before it.
  function Take(x: Exchange): (Exchange, Role, Role) {
    if x.processing != Null then (x, Null, Null)
    else (x.(processing := x.pending, pending := Null), x.pending, if x.pending != Null then x.displayed else Null)
  }

  function Finish(x: Exchange, success: bool): Exchange
    requires |x.slots| == SLOTS
  {
    RetireFree(
      if x.processing == Null then x
      else if success then x.(displayed := x.processing, processing := Null)
      else if x.latest == x.processing then x.(pending := x.processing, processing := Null)
      else x.(processing := Null))
  }

  function Redraw(x: Exchange): Exchange {
    if x.pending == Null && x.latest != Null
    then x.(pending := if x.processing != Null then x.processing else x.displayed)
    else x
  }

  function Detach(x: Exchange): Exchange
    requires |x.slots| == SLOTS
  {
    RetireFree(x.(processing := Null, displayed := Null, pending := x.latest))
  }

  function Invalidate(x: Exchange): Exchange
    requires |x.slots| == SLOTS
  {
    RetireFree(x.(pending := Null, latest := Null))
  }

  // The producer fills the slot it may write.
  function Write(x: Exchange, id: nat): Exchange
    requires |x.slots| == SLOTS && x.writer.Slot? && x.writer.index < SLOTS
  {
    x.(slots := x.slots[x.writer.index := Image(id)])
  }

  // ---------- invariant ----------

  predicate RoleOk(r: Role) { r.Slot? ==> r.index < SLOTS }

  // The writer is a slot of its own; whatever is pending is the latest publication; and the
  // latest publication is always held: pending, else in processing, else displayed.
  ghost predicate Valid(x: Exchange) {
    && |x.slots| == SLOTS
    && RoleOk(x.writer) && RoleOk(x.pending) && RoleOk(x.processing) && RoleOk(x.displayed) && RoleOk(x.latest)
    && x.writer.Slot? && !Unavailable(x, x.writer.index) && x.writer != x.latest
    && (x.pending != Null ==> x.pending == x.latest)
    && (x.latest != Null && x.pending == Null ==>
          x.latest == if x.processing != Null then x.processing else x.displayed)
  }

  // Three roles cannot occupy four slots.
  lemma Pigeonhole(x: Exchange)
    ensures FirstFree(x, 0).Slot?
  {
    assert !(Unavailable(x, 0) && Unavailable(x, 1) && Unavailable(x, 2) && Unavailable(x, 3));
  }

  // ---------- runs ----------

  datatype Op = Writes(id: nat) | Publishes | Takes | Finishes(success: bool) | Redraws | Detaches | Invalidates

  // A slot with the frame it held when it was published or taken.
  datatype Seen = Nothing | Seen(slot: Role, frame: Frame)

  // The exchange with what an observer of all operations and of what they return knows: the frame
  // written since the last publication; the newest publication that was not invalidated, and
  // whether it has been displayed since it was published or since the last consumer was detached;
  // the frame in the consumer's hands; and the frame of its last successful finish.
  datatype History = History(x: Exchange, draft: Frame, newest: Seen, shown: bool, taken: Seen, onScreen: Seen)

  // A role holds what was seen in it.
  ghost predicate Holds(x: Exchange, r: Role, seen: Seen) {
    if r.Null? then seen == Nothing else r.index < |x.slots| && seen == Seen(r, x.slots[r.index])
  }

  ghost predicate Inv(h: History) {
    && Valid(h.x)
    && (h.draft.Image? ==> h.x.slots[h.x.writer.index] == h.draft)
    && Holds(h.x, h.x.latest, h.newest) && Holds(h.x, h.x.processing, h.taken) && Holds(h.x, h.x.displayed, h.onScreen)
    && (!h.shown && h.x.latest != Null && h.x.pending == Null ==> h.x.processing == h.x.latest)
    && (forall i :: 0 <= i < SLOTS && h.x.slots[i].Image? ==> Held(h.x, i))
  }

  function Step(h: History, op: Op): History
    requires |h.x.slots| == SLOTS && h.x.writer.Slot? && h.x.writer.index < SLOTS && RoleOk(h.x.pending)
  {
    match op
    case Writes(id) => h.(x := Write(h.x, id), draft := Image(id))
    case Publishes =>
      var frame := if h.draft.Image? then h.draft else h.x.slots[h.x.writer.index];
      h.(x := Publish(h.x), draft := Blank, newest := Seen(h.x.writer, frame), shown := false)
    case Takes =>
      var (y, frame, _) := Take(h.x);
      h.(x := y, taken := if frame.Slot? && frame.index < SLOTS then Seen(frame, h.x.slots[frame.index]) else h.taken)
    case Finishes(success) =>
      h.(x := Finish(h.x, success), taken := Nothing,
         onScreen := if success && h.taken != Nothing then h.taken else h.onScreen,
         shown := h.shown || (success && h.taken != Nothing && h.newest != Nothing && h.taken.slot == h.newest.slot))
    case Redraws => h.(x := Redraw(h.x))
    case Detaches => h.(x := Detach(h.x), shown := false, taken := Nothing, onScreen := Nothing)
    case Invalidates => h.(x := Invalidate(h.x), newest := Nothing)
  }

  lemma PublishKeeps(h: History)
    requires Inv(h)
    ensures Inv(Step(h, Publishes))
  {
    Pigeonhole(RetireFree(h.x.(latest := h.x.writer, pending := h.x.writer, writer := Null)));
  }

  lemma TakeKeeps(h: History)
    requires Inv(h)
    ensures Inv(Step(h, Takes))
  {
  }

  // Retiring touches no frame that is held.
  lemma RetireKeeps(x: Exchange, r: Role, seen: Seen)
    requires |x.slots| == SLOTS && Holds(x, r, seen) && (r.Slot? ==> Held(x, r.index))
    ensures Holds(RetireFree(x), r, seen)
  {
  }

  lemma SuccessKeeps(h: History)
    requires Inv(h)
    ensures Inv(Step(h, Finishes(true)))
  {
    var x := if h.x.processing == Null then h.x else h.x.(displayed := h.x.processing, processing := Null);
    RetireKeeps(x, x.latest, h.newest);
    RetireKeeps(x, x.displayed, if h.taken != Nothing then h.taken else h.onScreen);
  }

  lemma FailureKeeps(h: History)
    requires Inv(h)
    ensures Inv(Step(h, Finishes(false)))
  {
  }

  lemma DetachKeeps(h: History)
    requires Inv(h)
    ensures Inv(Step(h, Detaches))
  {
  }

  lemma WriteKeeps(h: History, id: nat)
    requires Inv(h)
    ensures Inv(Step(h, Writes(id)))
  {
  }

  lemma RedrawKeeps(h: History)
    requires Inv(h)
    ensures Inv(Step(h, Redraws))
  {
  }

  lemma InvalidateKeeps(h: History)
    requires Inv(h)
    ensures Inv(Step(h, Invalidates))
  {
  }

  // Every operation keeps the invariant.
  lemma StepKeeps(h: History, op: Op)
    requires Inv(h)
    ensures Inv(Step(h, op))
  {
    match op
    case Writes(id) => WriteKeeps(h, id);
    case Publishes => PublishKeeps(h);
    case Takes => TakeKeeps(h);
    case Finishes(success) => if success { SuccessKeeps(h); } else { FailureKeeps(h); }
    case Redraws => RedrawKeeps(h);
    case Detaches => DetachKeeps(h);
    case Invalidates => InvalidateKeeps(h);
  }

  ghost function After(h: History, ops: seq<Op>): (r: History)
    requires Inv(h)
    ensures Inv(r)
    decreases |ops|
  {
    if ops == [] then h
    else
      var before := After(h, ops[..|ops| - 1]);
      StepKeeps(before, ops[|ops| - 1]);
      Step(before, ops[|ops| - 1])
  }

  const START := History(INITIAL, Blank, Nothing, false, Nothing, Nothing)

  // In every run the writer is a slot that is neither pending, processing, displayed nor the
  // latest publication, and a latest publication is held by one of those three roles, so
  // retire never touches it.
  lemma WriterNeverAliases(ops: seq<Op>)
    ensures var x := After(START, ops).x;
      && x.writer.Slot?
      && x.writer != x.pending && x.writer != x.processing && x.writer != x.displayed && x.writer != x.latest
      && (x.latest.Slot? ==> Unavailable(x, x.latest.index))
  {
  }

  // The consumer has neither finished nor been detached.
  ghost predicate StillHolding(ops: seq<Op>) {
    forall i :: 0 <= i < |ops| ==> !ops[i].Finishes? && !ops[i].Detaches?
  }

  lemma HoldingStep(h: History, op: Op)
    requires Inv(h) && h.x.processing != Null && !op.Finishes? && !op.Detaches?
    ensures var x, y := h.x, Step(h, op).x;
      && y.processing == x.processing && y.displayed == x.displayed
      && |y.slots| == SLOTS && y.slots[x.processing.index] == x.slots[x.processing.index]
      && (x.displayed.Slot? ==> y.slots[x.displayed.index] == x.slots[x.displayed.index])
  {
  }

  // A taken frame and the frame displayed before it stay in their roles and are not written
  // until the consumer finishes or is detached, whatever else happens.
  lemma {:induction false} TakenFrameIsImmutable(h: History, ops: seq<Op>)
    requires Inv(h) && h.x.processing != Null && StillHolding(ops)
    ensures var x, y := h.x, After(h, ops).x;
      && y.processing == x.processing && y.displayed == x.displayed
      && y.slots[x.processing.index] == x.slots[x.processing.index]
      && (x.displayed.Slot? ==> y.slots[x.displayed.index] == x.slots[x.displayed.index])
    decreases |ops|
  {
    if ops != [] {
      TakenFrameIsImmutable(h, ops[..|ops| - 1]);
      HoldingStep(After(h, ops[..|ops| - 1]), ops[|ops| - 1]);
    }
  }

  // The newest publication that was not invalidated is what the next possible take returns,
  // as long as it has not been displayed; while a consumer is busy it is queued behind it or
  // being processed, so it is never lost.
  lemma NewestIsTakenNext(ops: seq<Op>)
    ensures var h := After(START, ops);
      h.newest.Seen? && !h.shown ==>
        if h.taken == Nothing
        then Take(h.x).1 == h.newest.slot && h.x.slots[h.newest.slot.index] == h.newest.frame
        else h.x.pending == h.newest.slot || h.taken == h.newest
  {
  }

  // With every frame it returns, a take returns what is on the screen: the frame of the last
  // successful finish since the last detach, unwritten and not retired, or nothing if there is none.
  lemma PreviousIsOnScreen(ops: seq<Op>)
    ensures var h := After(START, ops);
      var (_, taken, previous) := Take(h.x);
      taken != Null ==> Holds(h.x, previous, h.onScreen)
  {
  }

  // With nothing published since the last invalidation, no take returns a frame.
  lemma NothingStaleIsTaken(ops: seq<Op>)
    ensures var h := After(START, ops); h.newest == Nothing ==> Take(h.x).1 == Null
  {
  }

  // A redraw request makes the newest frame takeable again, at once or, if the consumer is busy,
  // once it has finished, however it does.
  lemma RedrawRepeatsTheLatest(ops: seq<Op>, success: bool)
    ensures var h := After(START, ops);
      h.newest.Seen? ==>
        var y := Redraw(h.x);
        var z := if h.taken == Nothing then y else Finish(y, success);
        Take(z).1 == h.newest.slot && RoleOk(h.newest.slot) && z.slots[h.newest.slot.index] == h.newest.frame
  {
  }

  // Every frame that no role holds any more has been handed to retire.
  lemma NoFrameLeaks(ops: seq<Op>, i: nat)
    requires i < SLOTS
    ensures var x := After(START, ops).x; x.slots[i].Image? ==> Held(x, i)
  {
  }

  // ---------- the exchange in place ----------

  class FrameExchange {
    var slots: array<Frame>
    var writer: Role
    var pending: Role
    var processing: Role
    var displayed: Role
    var latest: Role

    ghost function Value(): Exchange
      reads this, slots
    {
      Exchange(slots[..], writer, pending, processing, displayed, latest)
    }

    constructor ()
      ensures Value() == INITIAL && fresh(slots)
    {
      slots := new Frame[SLOTS](_ => Blank);
      writer, pending, processing, displayed, latest := Slot(0), Null, Null, Null, Null;
      new;
      assert slots[..] == INITIAL.slots;
    }

    // The producer's access to its slot, outside the lock.
    method WriteFrame(id: nat)
      requires Valid(Value())
      modifies slots
      ensures Value() == Write(old(Value()), id) && Valid(Value())
    {
      slots[writer.index] := Image(id);
    }

    method RetireFreeSlots()
      requires slots.Length == SLOTS
      modifies slots
      ensures Value() == RetireFree(old(Value()))
    {
      var i := 0;
      while i < SLOTS
        invariant 0 <= i <= SLOTS
        invariant forall j :: 0 <= j < i ==> slots[j] == if Held(old(Value()), j) then old(slots[j]) else Retired
        invariant forall j :: i <= j < SLOTS ==> slots[j] == old(slots[j])
      {
        if Slot(i) != writer && Slot(i) != pending && Slot(i) != processing && Slot(i) != displayed {
          slots[i] := Retired;
        }
        i := i + 1;
      }
      assert slots[..] == RetireFree(old(Value())).slots;
    }

    method PublishFrame()
      requires Valid(Value())
      modifies this, slots
      ensures slots == old(slots) && Value() == Publish(old(Value())) && Valid(Value())
    {
      latest, pending := writer, writer;
      writer := Null;
      RetireFreeSlots();
      ghost var y := Value();
      Pigeonhole(y);
      var i := 0;
      while i < SLOTS
        invariant 0 <= i <= SLOTS
        invariant Value() == y && FirstFree(y, i) == FirstFree(y, 0)
      {
        if Slot(i) != pending && Slot(i) != processing && Slot(i) != displayed {
          writer := Slot(i);
          break;
        }
        i := i + 1;
      }
    }

    method TakeFrame() returns (frame: Role, previous: Role)
      requires Valid(Value())
      modifies this`pending, this`processing
      ensures (Value(), frame, previous) == Take(old(Value())) && Valid(Value())
    {
      frame, previous := Null, Null;
      if processing == Null {
        frame := pending;
        processing := pending;
        pending := Null;
        if frame != Null { previous := displayed; }
      }
    }

    method FinishFrame(success: bool)
      requires Valid(Value())
      modifies this`pending, this`processing, this`displayed, slots
      ensures Value() == Finish(old(Value()), success) && Valid(Value())
    {
      if processing != Null {
        if success { displayed := processing; }
        if !success && latest == processing { pending := processing; }
        processing := Null;
      }
      RetireFreeSlots();
    }

    method RedrawFrame()
      requires Valid(Value())
      modifies this`pending
      ensures Value() == Redraw(old(Value())) && Valid(Value())
    {
      if pending == Null && latest != Null {
        pending := if processing != Null then processing else displayed;
      }
    }

    method DetachConsumer()
      requires Valid(Value())
      modifies this`pending, this`processing, this`displayed, slots
      ensures Value() == Detach(old(Value())) && Valid(Value())
    {
      processing, displayed := Null, Null;
      pending := latest;
      RetireFreeSlots();
    }

    method InvalidateFrames()
      requires Valid(Value())
      modifies this`pending, this`latest, slots
      ensures Value() == Invalidate(old(Value())) && Valid(Value())
    {
      pending, latest := Null, Null;
      RetireFreeSlots();
    }

    // What an observer of the latest publication is shown, if there is one.
    method ObserveLatest() returns (found: bool, frame: Frame)
      requires Valid(Value())
      ensures found == (latest != Null)
      ensures frame == if found then slots[latest.index] else Blank
    {
      found := latest != Null;
      frame := if found then slots[latest.index] else Blank;
    }
  }
}
