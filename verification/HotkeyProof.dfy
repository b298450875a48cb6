/**
 What the hotkey matcher guarantees over every sequence of submits, whatever the sink
 accepts: the output is balanced per physical key and mirrors the ledger, nothing is
 reordered, and the ledger follows the physical keys.
 */
module HotkeyProof {
  import opened HotkeyModel

  // ---------- runs ----------

  // What a caller submits: the event, whether its make may be replayed, and whether the
  // ledger could grow for it.
  datatype Submission = Submission(event: Event, allowReplay: bool, room: bool)

  // The matcher, what its sink has accepted, and the inputs it has processed with held keys
  // named by their make.
  datatype State = State(held: seq<HeldKey>, failed: bool, log: seq<Event>, seen: seq<Event>)

  ghost function Step(registry: seq<Registration>, accepts: Accepts, s: State, x: Submission): (r: State)
    requires Makes(s.held)
    ensures Makes(r.held)
  {
    if s.failed then s
    else
      var o := Submit(registry, s.held, x.event, s.log, accepts, x.allowReplay, x.room);
      State(o.held, !o.ok, o.log, s.seen + [Normalise(s.held, x.event)])
  }

  ghost function Run(registry: seq<Registration>, accepts: Accepts, xs: seq<Submission>): (r: State)
    ensures Makes(r.held)
  {
    if xs == [] then State([], false, [], [])
    else Step(registry, accepts, Run(registry, accepts, xs[..|xs| - 1]), xs[|xs| - 1])
  }

  // ---------- physical keys and the output ----------

  datatype Physical = Physical(extended: bv32, scan: nat, key: nat)

  ghost function PhysicalOf(e: Event): Physical
    requires e.Key?
  {
    Physical(e.flags & FLAG_EXTENDED, e.scan, if e.scan == 0 then e.key else 0)
  }

  // The code of the physical key p if it is down after these events.
  datatype Down = Up | DownAs(key: nat)

  ghost function After(events: seq<Event>, p: Physical): Down {
    if events == [] then Up
    else
      var rest, e := events[..|events| - 1], events[|events| - 1];
      if e.Key? && PhysicalOf(e) == p then (if e.pressed then DownAs(e.key) else Up)
      else After(rest, p)
  }

  // Each physical key goes through (make, repeats, break)*, and repeats and breaks carry the
  // code of their make.
  ghost predicate Balanced(events: seq<Event>) {
    events == [] ||
    var rest, e := events[..|events| - 1], events[|events| - 1];
    && Balanced(rest)
    && (e.Key? ==>
          if e.pressed then After(rest, PhysicalOf(e)) == Up || After(rest, PhysicalOf(e)) == DownAs(e.key)
          else After(rest, PhysicalOf(e)) == DownAs(e.key))
  }

  lemma Appended(events: seq<Event>, e: Event)
    ensures forall p ::
      After(events + [e], p) == (if e.Key? && PhysicalOf(e) == p then (if e.pressed then DownAs(e.key) else Up)
        else After(events, p))
    ensures Balanced(events + [e]) <==>
      && Balanced(events)
      && (e.Key? ==>
            if e.pressed then After(events, PhysicalOf(e)) == Up || After(events, PhysicalOf(e)) == DownAs(e.key)
            else After(events, PhysicalOf(e)) == DownAs(e.key))
  {
    assert (events + [e])[..|events|] == events;
  }

  // ---------- the ledger mirrors the output ----------

  ghost predicate Replayable(held: seq<HeldKey>) {
    forall i :: 0 <= i < |held| ==> held[i].allowReplay
  }

  // One entry per physical key, made by a press.
  ghost predicate Ledger(held: seq<HeldKey>) {
    && (forall i :: 0 <= i < |held| ==> held[i].make.Key? && held[i].make.pressed)
    && (forall i, j :: 0 <= i < j < |held| ==> PhysicalOf(held[i].make) != PhysicalOf(held[j].make))
  }

  // What the ledger says about one of its keys is what the output says.
  ghost predicate EntryMirrors(h: HeldKey, log: seq<Event>)
    requires h.make.Key?
  {
    After(log, PhysicalOf(h.make)) == if h.state == Delivered then DownAs(h.make.key) else Up
  }

  ghost predicate InLedger(held: seq<HeldKey>, p: Physical)
    requires Makes(held)
  {
    exists i :: 0 <= i < |held| && PhysicalOf(held[i].make) == p
  }

  ghost predicate Mirrors(held: seq<HeldKey>, log: seq<Event>) {
    && Ledger(held) && Balanced(log)
    && (forall i :: 0 <= i < |held| ==> EntryMirrors(held[i], log))
    && (forall p :: !InLedger(held, p) ==> After(log, p) == Up)
  }

  // Flushing keeps the mirror, delivers only pending keys, and leaves none pending if it succeeds.
  lemma {:induction false} FlushMirrors(held: seq<HeldKey>, i: nat, log: seq<Event>, accepts: Accepts)
    requires i <= |held| && Mirrors(held, log) && Replayable(held)
    ensures var o := Flush(held, i, log, accepts); Mirrors(o.held, o.log) && Replayable(o.held)
    decreases |held| - i
  {
    if i < |held| {
      if held[i].state != Pending {
        FlushMirrors(held, i + 1, log, accepts);
      } else if accepts(log, held[i].make) {
        var now := held[i := held[i].(state := Delivered)];
        Deliver(held, i, log);
        FlushMirrors(now, i + 1, log + [held[i].make], accepts);
      }
    }
  }

  lemma Deliver(held: seq<HeldKey>, i: nat, log: seq<Event>)
    requires i < |held| && Mirrors(held, log) && held[i].state == Pending
    ensures Mirrors(held[i := held[i].(state := Delivered)], log + [held[i].make])
  {
    var now := held[i := held[i].(state := Delivered)];
    var next := log + [held[i].make];
    Appended(log, held[i].make);
    assert EntryMirrors(held[i], log);
    forall j | 0 <= j < |now| ensures EntryMirrors(now[j], next) {
      assert EntryMirrors(held[j], log);
      assert j != i ==> PhysicalOf(held[j].make) != PhysicalOf(held[i].make);
    }
    forall p | !InLedger(now, p) ensures After(next, p) == Up {
      assert now[i].make == held[i].make;
      assert forall j :: 0 <= j < |held| ==> held[j].make == now[j].make;
      assert !InLedger(held, p);
    }
  }

  lemma {:induction false} FlushShape(held: seq<HeldKey>, i: nat, log: seq<Event>, accepts: Accepts)
    requires i <= |held|
    ensures var o := Flush(held, i, log, accepts);
      && (forall j :: 0 <= j < |held| ==>
            && o.held[j].allowReplay == held[j].allowReplay
            && (o.held[j].state == held[j].state
                  || (j >= i && held[j].state == Pending && o.held[j].state == Delivered)))
      && (o.ok ==> forall j :: i <= j < |held| ==> o.held[j].state != Pending)
    decreases |held| - i
  {
    if i < |held| {
      if held[i].state != Pending {
        FlushShape(held, i + 1, log, accepts);
      } else {
        var now := held[i := held[i].(state := Delivered)];
        if !held[i].allowReplay {
          FlushShape(now, i + 1, log, accepts);
        } else if accepts(log, held[i].make) {
          FlushShape(now, i + 1, log + [held[i].make], accepts);
        }
      }
    }
  }

  // A key that the output shows down is repeated under its make's code.
  lemma EmitRepeat(held: seq<HeldKey>, i: nat, log: seq<Event>, e: Event)
    requires i < |held| && Mirrors(held, log) && held[i].state == Delivered
    requires e.Key? && e.pressed && PhysicalOf(e) == PhysicalOf(held[i].make) && e.key == held[i].make.key
    ensures Mirrors(held, log + [e])
  {
    Appended(log, e);
    assert EntryMirrors(held[i], log);
    forall j | 0 <= j < |held| ensures EntryMirrors(held[j], log + [e]) {
      assert EntryMirrors(held[j], log);
    }
    assert InLedger(held, PhysicalOf(e));
  }

  // Every other entry survives the removal of one.
  lemma Remaining(held: seq<HeldKey>, i: nat, k: nat)
    requires Makes(held) && i < |held| && k < |held| && k != i
    ensures InLedger(Without(held, i), PhysicalOf(held[k].make))
  {
    var j := if k < i then k else k - 1;
    assert Without(held, i)[j] == held[k];
  }

  // A key that is up in the output may be forgotten.
  lemma Forget(held: seq<HeldKey>, i: nat, log: seq<Event>)
    requires i < |held| && Mirrors(held, log) && held[i].state != Delivered
    ensures Mirrors(Without(held, i), log)
  {
    var left := Without(held, i);
    forall j | 0 <= j < |left| ensures EntryMirrors(left[j], log) {
      var k := if j < i then j else j + 1;
      assert left[j] == held[k] && EntryMirrors(held[k], log);
    }
    forall k | 0 <= k < |held| && k != i ensures InLedger(left, PhysicalOf(held[k].make)) {
      Remaining(held, i, k);
    }
    forall p | !InLedger(left, p) ensures After(log, p) == Up {
      assert EntryMirrors(held[i], log);
    }
  }

  // A key that the output shows down is released under its make's code and forgotten.
  lemma EmitBreak(held: seq<HeldKey>, i: nat, log: seq<Event>, e: Event)
    requires i < |held| && Mirrors(held, log) && held[i].state == Delivered
    requires e.Key? && !e.pressed && PhysicalOf(e) == PhysicalOf(held[i].make) && e.key == held[i].make.key
    ensures Mirrors(Without(held, i), log + [e])
  {
    var gone := held[i := held[i].(state := Consumed)];
    Appended(log, e);
    assert EntryMirrors(held[i], log);
    forall j | 0 <= j < |gone| ensures EntryMirrors(gone[j], log + [e]) {
      assert EntryMirrors(held[j], log);
    }
    forall p | !InLedger(gone, p) ensures After(log + [e], p) == Up {
      assert gone[i].make == held[i].make && forall k :: 0 <= k < |held| ==> held[k].make == gone[k].make;
      assert !InLedger(held, p);
    }
    Forget(gone, i, log + [e]);
    assert Without(gone, i) == Without(held, i);
  }

  // A new key enters pending, and is up in the output.
  lemma Enter(held: seq<HeldKey>, log: seq<Event>, h: HeldKey)
    requires Mirrors(held, log) && h.make.Key? && h.make.pressed && h.state == Pending
      && !InLedger(held, PhysicalOf(h.make))
    ensures Mirrors(held + [h], log)
  {
    var now := held + [h];
    forall p | !InLedger(now, p) ensures After(log, p) == Up {
      assert forall k :: 0 <= k < |held| ==> held[k] == now[k];
      assert !InLedger(held, p);
    }
  }

  // Anything but a key leaves the mirror alone.
  lemma EmitOther(held: seq<HeldKey>, log: seq<Event>, e: Event)
    requires Mirrors(held, log) && !e.Key?
    ensures Mirrors(held, log + [e])
  {
    Appended(log, e);
    forall j | 0 <= j < |held| ensures EntryMirrors(held[j], log + [e]) {
      assert EntryMirrors(held[j], log);
    }
  }

  lemma ConsumeMirrors(held: seq<HeldKey>, log: seq<Event>)
    requires Mirrors(held, log)
    ensures Mirrors(Consume(held), log)
  {
    var now := Consume(held);
    forall j | 0 <= j < |now| ensures EntryMirrors(now[j], log) {
      assert EntryMirrors(held[j], log);
    }
    forall p | !InLedger(now, p) ensures After(log, p) == Up {
      assert forall k :: 0 <= k < |held| ==> held[k].make == now[k].make;
      assert !InLedger(held, p);
    }
  }

  lemma IndexIsPhysical(held: seq<HeldKey>, e: Event)
    requires Makes(held) && e.Key?
    ensures Index(held, e) == |held| <==> !InLedger(held, PhysicalOf(e))
    ensures Index(held, e) < |held| ==>
      && PhysicalOf(held[Index(held, e)].make) == PhysicalOf(e)
      && PhysicalOf(Normalise(held, e)) == PhysicalOf(e)
      && Normalise(held, e).key == held[Index(held, e)].make.key
  {
    assert forall i :: 0 <= i < |held| ==> (SameKey(held[i].make, e) <==> PhysicalOf(held[i].make) == PhysicalOf(e));
  }

  // A break follows a flush, and its key leaves the ledger.
  lemma BreakMirrors(held: seq<HeldKey>, i: nat, e: Event, log: seq<Event>, accepts: Accepts)
    requires Mirrors(held, log) && Replayable(held) && i < |held| && held[i].state != Consumed
    requires e.Key? && !e.pressed && PhysicalOf(e) == PhysicalOf(held[i].make) && e.key == held[i].make.key
    ensures var o := Emit(Flush(held, 0, log, accepts), e, accepts);
      if o.ok then i < |o.held| && Mirrors(Without(o.held, i), o.log) && Replayable(Without(o.held, i))
      else Mirrors(o.held, o.log) && Replayable(o.held)
  {
    var f := Flush(held, 0, log, accepts);
    FlushMirrors(held, 0, log, accepts);
    FlushShape(held, 0, log, accepts);
    if f.ok && accepts(f.log, e) { EmitBreak(f.held, i, f.log, e); }
  }

  lemma ReleaseMirrors(held: seq<HeldKey>, e: Event, log: seq<Event>, accepts: Accepts)
    requires Mirrors(held, log) && Replayable(held) && e.Key? && !e.pressed
    ensures var o := Release(held, e, log, accepts); Mirrors(o.held, o.log) && Replayable(o.held)
  {
    var i := Index(held, e);
    IndexIsPhysical(held, e);
    if i < |held| {
      if held[i].state == Consumed {
        Forget(held, i, log);
      } else {
        FlushMirrors(held, 0, log, accepts);
        BreakMirrors(held, i, Normalise(held, e), log, accepts);
      }
    }
  }

  // A repeat follows a flush.
  lemma RepeatMirrors(held: seq<HeldKey>, i: nat, e: Event, log: seq<Event>, accepts: Accepts)
    requires Mirrors(held, log) && Replayable(held) && i < |held| && e.Key? && e.pressed && held[i].state == Delivered
    requires PhysicalOf(e) == PhysicalOf(held[i].make) && e.key == held[i].make.key
    ensures var o := Emit(Flush(held, 0, log, accepts), e, accepts); Mirrors(o.held, o.log) && Replayable(o.held)
  {
    var f := Flush(held, 0, log, accepts);
    FlushMirrors(held, 0, log, accepts);
    FlushShape(held, 0, log, accepts);
    if f.ok && accepts(f.log, e) { EmitRepeat(f.held, i, f.log, e); }
  }

  // A hotkey follows the keys it consumes.
  lemma ChordMirrors(held: seq<HeldKey>, log: seq<Event>, hotkey: Event)
    requires Mirrors(held, log) && Replayable(held) && !hotkey.Key?
    ensures Mirrors(Consume(held), log) && Mirrors(Consume(held), log + [hotkey]) && Replayable(Consume(held))
  {
    ConsumeMirrors(held, log);
    EmitOther(Consume(held), log, hotkey);
  }

  lemma HeldMirrors(registry: seq<Registration>, held: seq<HeldKey>, i: nat, e: Event, log: seq<Event>,
      accepts: Accepts)
    requires Mirrors(held, log) && Replayable(held) && i < |held| && e.Key? && e.pressed
    requires PhysicalOf(e) == PhysicalOf(held[i].make) && e.key == held[i].make.key
    ensures var o := Held(registry, held, i, e, log, accepts); Mirrors(o.held, o.log) && Replayable(o.held)
  {
    FlushMirrors(held, 0, log, accepts);
    if held[i].state == Delivered {
      RepeatMirrors(held, i, e, log, accepts);
    } else {
      var m := Match(registry, e.key, e.modifiers);
      if !Blocked(held, e.modifiers) && m < |registry| {
        ChordMirrors(held, log, Hotkey(e.source, registry[m].identifier));
      }
    }
  }

  // A text follows a flush; other events leave the ledger alone.
  lemma OtherMirrors(held: seq<HeldKey>, e: Event, log: seq<Event>, accepts: Accepts)
    requires Mirrors(held, log) && Replayable(held) && !e.Key?
    ensures var o := Emit(if e.Text? then Flush(held, 0, log, accepts) else Outcome(held, log, true), e, accepts);
      Mirrors(o.held, o.log) && Replayable(o.held)
  {
    var f := Flush(held, 0, log, accepts);
    FlushMirrors(held, 0, log, accepts);
    EmitOther(held, log, e);
    EmitOther(f.held, f.log, e);
  }

  lemma PressMirrors(registry: seq<Registration>, held: seq<HeldKey>, e: Event, log: seq<Event>, accepts: Accepts,
      room: bool)
    requires Mirrors(held, log) && Replayable(held) && e.Key? && e.pressed
    ensures var o := Press(registry, held, e, log, accepts, true, room); Mirrors(o.held, o.log) && Replayable(o.held)
  {
    IndexIsPhysical(held, e);
    var i := Index(held, e);
    if i < |held| {
      HeldMirrors(registry, held, i, Normalise(held, e), log, accepts);
    } else if room {
      Enter(held, log, HeldKey(e, Pending, true));
      HeldMirrors(registry, held + [HeldKey(e, Pending, true)], i, e, log, accepts);
    }
  }

  lemma SubmitMirrors(registry: seq<Registration>, held: seq<HeldKey>, e: Event, log: seq<Event>, accepts: Accepts,
      room: bool)
    requires Mirrors(held, log) && Replayable(held)
    ensures var o := Submit(registry, held, e, log, accepts, true, room); Mirrors(o.held, o.log) && Replayable(o.held)
  {
    if !e.Key? {
      OtherMirrors(held, e, log, accepts);
    } else if e.pressed {
      PressMirrors(registry, held, e, log, accepts, room);
    } else {
      ReleaseMirrors(held, e, log, accepts);
    }
  }

  // Every submission of a run lets its make be replayed.
  ghost predicate AllowReplay(xs: seq<Submission>) {
    forall i :: 0 <= i < |xs| ==> xs[i].allowReplay
  }

  // With replay allowed, at every point of every run, whatever the sink refuses and even when
  // the ledger cannot grow: the output of each physical key is a prefix of
  // (make, repeats, break)* with one key code per cycle, and a key is down in the output
  // exactly when its ledger entry is DELIVERED.
  lemma {:induction false} OutputMirrorsLedger(registry: seq<Registration>, accepts: Accepts, xs: seq<Submission>)
    requires AllowReplay(xs)
    ensures var s := Run(registry, accepts, xs); Mirrors(s.held, s.log) && Replayable(s.held)
  {
    if xs != [] {
      var before := Run(registry, accepts, xs[..|xs| - 1]);
      OutputMirrorsLedger(registry, accepts, xs[..|xs| - 1]);
      if !before.failed {
        var x := xs[|xs| - 1];
        SubmitMirrors(registry, before.held, x.event, before.log, accepts, x.room);
      }
    }
  }
}
