/**
 The hotkey matcher only delays or drops: what reached the sink, followed by what is still
 withheld, is a subsequence of the input. Between submits only registered modifiers are
 withheld, and the ledger holds exactly the keys that are physically down.
 */
module HotkeyOrder {
  import opened HotkeyModel
  import opened HotkeyProof

  // ---------- subsequences ----------

  ghost predicate Subsequence<T>(a: seq<T>, b: seq<T>) {
    || a == []
    || (b != [] &&
        (|| Subsequence(a, b[..|b| - 1])
         || (a[|a| - 1] == b[|b| - 1] && Subsequence(a[..|a| - 1], b[..|b| - 1]))))
  }

  lemma Skip<T>(a: seq<T>, b: seq<T>, x: T)
    requires Subsequence(a, b)
    ensures Subsequence(a, b + [x])
  {
    assert (b + [x])[..|b|] == b;
  }

  lemma Both<T>(a: seq<T>, b: seq<T>, x: T)
    requires Subsequence(a, b)
    ensures Subsequence(a + [x], b + [x])
  {
    assert (b + [x])[..|b|] == b && (a + [x])[..|a|] == a;
  }

  lemma {:induction false} DropLast<T>(a: seq<T>, x: T, b: seq<T>)
    requires Subsequence(a + [x], b)
    ensures Subsequence(a, b)
  {
    var rest, last := b[..|b| - 1], b[|b| - 1];
    assert (a + [x])[..|a|] == a && rest + [last] == b;
    if Subsequence(a + [x], rest) {
      DropLast(a, x, rest);
    }
    Skip(a, rest, last);
  }

  lemma {:induction false} DropTail<T>(a: seq<T>, c: seq<T>, b: seq<T>)
    requires Subsequence(a + c, b)
    ensures Subsequence(a, b)
  {
    if c == [] {
      assert a + c == a;
    } else {
      var rest, last := c[..|c| - 1], c[|c| - 1];
      assert a + c == (a + rest) + [last];
      DropLast(a + rest, last, b);
      DropTail(a, rest, b);
    }
  }

  // ---------- what is visible and what is withheld ----------

  // The key and text events; hotkeys and other events are no part of the keyboard stream.
  ghost function Visible(events: seq<Event>): seq<Event> {
    if events == [] then []
    else
      var rest, e := events[..|events| - 1], events[|events| - 1];
      if e.Key? || e.Text? then Visible(rest) + [e] else Visible(rest)
  }

  lemma VisibleAppended(events: seq<Event>, e: Event)
    ensures Visible(events + [e]) == if e.Key? || e.Text? then Visible(events) + [e] else Visible(events)
  {
    assert (events + [e])[..|events|] == events;
  }

  // The makes that would still be replayed, in ledger order.
  ghost function Waiting(held: seq<HeldKey>): seq<Event> {
    if held == [] then []
    else (if held[0].state == Pending && held[0].allowReplay then [held[0].make] else []) + Waiting(held[1..])
  }

  lemma {:induction false} WaitingSplit(a: seq<HeldKey>, b: seq<HeldKey>)
    ensures Waiting(a + b) == Waiting(a) + Waiting(b)
  {
    if a == [] {
      assert a + b == b;
    } else {
      assert (a + b)[1..] == a[1..] + b;
      WaitingSplit(a[1..], b);
    }
  }

  lemma {:induction false} NoneWaiting(held: seq<HeldKey>)
    requires forall i :: 0 <= i < |held| ==> held[i].state != Pending
    ensures Waiting(held) == []
  {
    if held != [] { NoneWaiting(held[1..]); }
  }

  // Settling the first pending key takes its make off the front of what waits.
  lemma WaitingAt(held: seq<HeldKey>, i: nat)
    requires i < |held| && held[i].state == Pending && forall j :: 0 <= j < i ==> held[j].state != Pending
    ensures Waiting(held) == (if held[i].allowReplay then [held[i].make] else [])
      + Waiting(held[i := held[i].(state := Delivered)])
  {
    var now := held[i := held[i].(state := Delivered)];
    assert held == held[..i] + ([held[i]] + held[i + 1..]);
    assert now == held[..i] + ([now[i]] + held[i + 1..]);
    NoneWaiting(held[..i]);
    WaitingSplit(held[..i], [held[i]] + held[i + 1..]);
    WaitingSplit(held[..i], [now[i]] + held[i + 1..]);
    assert ([held[i]] + held[i + 1..])[1..] == held[i + 1..];
    assert ([now[i]] + held[i + 1..])[1..] == held[i + 1..];
  }

  // Removing a key that is not pending leaves what waits as it is.
  lemma {:induction false} WaitingWithout(held: seq<HeldKey>, i: nat)
    requires i < |held| && held[i].state != Pending
    ensures Waiting(Without(held, i)) == Waiting(held)
  {
    if i == 0 {
      assert Without(held, i) == held[1..];
    } else {
      WaitingWithout(held[1..], i - 1);
      assert Without(held, i)[1..] == Without(held[1..], i - 1);
    }
  }

  // The keyboard stream as the matcher sees it: what is out, then what is withheld.
  ghost function Stream(held: seq<HeldKey>, log: seq<Event>): seq<Event> { Visible(log) + Waiting(held) }

  // A make that is replayed moves from one part to the other; one that is not was in neither.
  lemma ReplayKeepsStream(held: seq<HeldKey>, i: nat, log: seq<Event>)
    requires i < |held| && held[i].state == Pending && forall j :: 0 <= j < i ==> held[j].state != Pending
    requires held[i].allowReplay && held[i].make.Key?
    ensures Stream(held[i := held[i].(state := Delivered)], log + [held[i].make]) == Stream(held, log)
  {
    var make, now := held[i].make, held[i := held[i].(state := Delivered)];
    WaitingAt(held, i);
    VisibleAppended(log, make);
    assert Visible(log) + [make] + Waiting(now) == Visible(log) + ([make] + Waiting(now));
  }

  lemma DropKeepsStream(held: seq<HeldKey>, i: nat, log: seq<Event>)
    requires i < |held| && held[i].state == Pending && forall j :: 0 <= j < i ==> held[j].state != Pending
    requires !held[i].allowReplay
    ensures Stream(held[i := held[i].(state := Delivered)], log) == Stream(held, log)
  {
    WaitingAt(held, i);
  }

  // Flushing moves makes from one part to the other and loses none.
  lemma {:induction false} FlushKeepsStream(held: seq<HeldKey>, i: nat, log: seq<Event>, accepts: Accepts)
    requires Makes(held) && i <= |held| && forall j :: 0 <= j < i ==> held[j].state != Pending
    ensures var o := Flush(held, i, log, accepts); Stream(o.held, o.log) == Stream(held, log)
    decreases |held| - i
  {
    if i < |held| {
      if held[i].state != Pending {
        FlushKeepsStream(held, i + 1, log, accepts);
      } else {
        var now := held[i := held[i].(state := Delivered)];
        if !held[i].allowReplay {
          DropKeepsStream(held, i, log);
          FlushKeepsStream(now, i + 1, log, accepts);
        } else if accepts(log, held[i].make) {
          ReplayKeepsStream(held, i, log);
          FlushKeepsStream(now, i + 1, log + [held[i].make], accepts);
        }
      }
    }
  }

  ghost predicate Delays(held: seq<HeldKey>, log: seq<Event>, seen: seq<Event>) {
    Subsequence(Stream(held, log), seen)
  }

  // An event that follows a complete flush extends the stream and the input alike; one that
  // does not get out leaves the stream as it is.
  lemma EmitDelays(o: Outcome, e: Event, seen: seq<Event>, accepts: Accepts)
    requires Delays(o.held, o.log, seen)
    requires o.ok ==> forall i :: 0 <= i < |o.held| ==> o.held[i].state != Pending
    ensures var r := Emit(o, e, accepts); Delays(r.held, r.log, seen + [e])
  {
    Skip(Stream(o.held, o.log), seen, e);
    if o.ok && accepts(o.log, e) {
      NoneWaiting(o.held);
      assert Stream(o.held, o.log) == Visible(o.log);
      VisibleAppended(o.log, e);
      assert Stream(o.held, o.log + [e]) == Visible(o.log + [e]);
      Both(Visible(o.log), seen, e);
    }
  }

  lemma ReleaseDelays(held: seq<HeldKey>, e: Event, log: seq<Event>, seen: seq<Event>, accepts: Accepts)
    requires Makes(held) && e.Key? && Delays(held, log, seen)
    ensures var o := Release(held, e, log, accepts); Delays(o.held, o.log, seen + [Normalise(held, e)])
  {
    var i, x := Index(held, e), Normalise(held, e);
    Skip(Stream(held, log), seen, x);
    if i < |held| {
      if held[i].state == Consumed {
        WaitingWithout(held, i);
      } else {
        EmitFlushed(held, i, x, log, seen, accepts);
      }
    }
  }

  // After a complete flush the ledger withholds nothing, with or without an entry.
  lemma EmitFlushed(held: seq<HeldKey>, i: nat, x: Event, log: seq<Event>, seen: seq<Event>, accepts: Accepts)
    requires Makes(held) && i < |held| && Delays(held, log, seen)
    ensures var o := Emit(Flush(held, 0, log, accepts), x, accepts);
      |o.held| == |held| && Delays(o.held, o.log, seen + [x])
        && (o.ok ==> Delays(Without(o.held, i), o.log, seen + [x]))
  {
    var f := Flush(held, 0, log, accepts);
    FlushKeepsStream(held, 0, log, accepts);
    FlushShape(held, 0, log, accepts);
    EmitDelays(f, x, seen, accepts);
    var o := Emit(f, x, accepts);
    if o.ok {
      NoneWaiting(o.held);
      NoneWaiting(Without(o.held, i));
    }
  }

  // A press of a key in the ledger, given what holds once its event is part of the input.
  lemma HeldDelays(registry: seq<Registration>, held: seq<HeldKey>, i: nat, e: Event, log: seq<Event>, seen: seq<Event>,
      accepts: Accepts)
    requires Makes(held) && i < |held| && e.Key?
    requires held[i].state == Delivered ==> Delays(held, log, seen)
    requires Delays(held, log, seen + [e])
    ensures var o := Held(registry, held, i, e, log, accepts); Delays(o.held, o.log, seen + [e])
  {
    var f := Flush(held, 0, log, accepts);
    FlushKeepsStream(held, 0, log, accepts);
    FlushShape(held, 0, log, accepts);
    if held[i].state == Delivered {
      EmitDelays(f, e, seen, accepts);
    } else {
      var m := Match(registry, e.key, e.modifiers);
      if !Blocked(held, e.modifiers) && m < |registry| {
        DropTail(Visible(log), Waiting(held), seen + [e]);
        NoneWaiting(Consume(held));
        assert Visible(log) + [] == Visible(log);
        VisibleAppended(log, Hotkey(e.source, registry[m].identifier));
      }
    }
  }

  // A first press enters the ledger behind all others.
  lemma {:induction false} PressDelays(registry: seq<Registration>, held: seq<HeldKey>, e: Event, log: seq<Event>,
      seen: seq<Event>, accepts: Accepts, allowReplay: bool)
    requires Makes(held) && Delays(held, log, seen) && Subsequence(Stream(held, log), seen + [e])
    requires e.Key? && e.pressed && Index(held, e) == |held|
    ensures var o := Submit(registry, held, e, log, accepts, allowReplay, true); Delays(o.held, o.log, seen + [e])
  {
    var h := HeldKey(e, Pending, allowReplay);
    WaitingSplit(held, [h]);
    assert Stream(held + [h], log) == if allowReplay then Stream(held, log) + [e] else Stream(held, log);
    Both(Stream(held, log), seen, e);
    HeldDelays(registry, held + [h], |held|, e, log, seen, accepts);
  }

  // A text follows a flush; other events are no part of the stream.
  lemma {:induction false} OtherDelays(held: seq<HeldKey>, e: Event, log: seq<Event>, seen: seq<Event>,
      accepts: Accepts)
    requires Makes(held) && Delays(held, log, seen) && Delays(held, log, seen + [e]) && !e.Key?
    ensures var o := Emit(if e.Text? then Flush(held, 0, log, accepts) else Outcome(held, log, true), e, accepts);
      Delays(o.held, o.log, seen + [e])
  {
    if e.Text? {
      FlushKeepsStream(held, 0, log, accepts);
      FlushShape(held, 0, log, accepts);
      EmitDelays(Flush(held, 0, log, accepts), e, seen, accepts);
    } else {
      VisibleAppended(log, e);
    }
  }

  lemma {:induction false} SubmitDelays(registry: seq<Registration>, held: seq<HeldKey>, e: Event, log: seq<Event>,
      seen: seq<Event>, accepts: Accepts, allowReplay: bool, room: bool)
    requires Makes(held) && Delays(held, log, seen)
    ensures var o := Submit(registry, held, e, log, accepts, allowReplay, room);
      Delays(o.held, o.log, seen + [Normalise(held, e)])
  {
    var x := Normalise(held, e);
    Skip(Stream(held, log), seen, x);
    if !e.Key? {
      OtherDelays(held, e, log, seen, accepts);
    } else if !e.pressed {
      ReleaseDelays(held, e, log, seen, accepts);
    } else {
      var i := Index(held, e);
      if i < |held| {
        HeldDelays(registry, held, i, x, log, seen, accepts);
      } else if room {
        PressDelays(registry, held, e, log, seen, accepts, allowReplay);
      }
    }
  }

  // At every point of every run, with or without replay, the key and text events that reached
  // the sink, followed by the makes still withheld in ledger order, form a subsequence of the
  // input (with held keys named by their make).
  lemma {:induction false} NeverReorders(registry: seq<Registration>, accepts: Accepts, xs: seq<Submission>)
    ensures var s := Run(registry, accepts, xs); Subsequence(Visible(s.log) + Waiting(s.held), s.seen)
  {
    if xs != [] {
      var before, x := Run(registry, accepts, xs[..|xs| - 1]), xs[|xs| - 1];
      NeverReorders(registry, accepts, xs[..|xs| - 1]);
      if !before.failed {
        SubmitDelays(registry, before.held, x.event, before.log, before.seen, accepts, x.allowReplay, x.room);
      }
    }
  }

  // ---------- between submits ----------

  ghost predicate OnlyModifiersWait(registry: seq<Registration>, held: seq<HeldKey>)
    requires Makes(held)
  {
    forall i :: 0 <= i < |held| && held[i].state == Pending ==> Withheld(registry, held[i].make.key)
  }

  lemma HeldWaits(registry: seq<Registration>, held: seq<HeldKey>, i: nat, e: Event, log: seq<Event>, accepts: Accepts)
    requires Makes(held) && i < |held| && e.Key? && e.key == held[i].make.key
    requires forall k :: 0 <= k < |held| && k != i && held[k].state == Pending ==> Withheld(registry, held[k].make.key)
    ensures var o := Held(registry, held, i, e, log, accepts); o.ok ==> OnlyModifiersWait(registry, o.held)
  {
    FlushShape(held, 0, log, accepts);
  }

  lemma SubmitWaits(registry: seq<Registration>, held: seq<HeldKey>, e: Event, log: seq<Event>, accepts: Accepts,
      allowReplay: bool, room: bool)
    requires Makes(held) && OnlyModifiersWait(registry, held)
    ensures var o := Submit(registry, held, e, log, accepts, allowReplay, room); o.ok ==>
      OnlyModifiersWait(registry, o.held)
  {
    if !e.Key? || !e.pressed {
      FlushShape(held, 0, log, accepts);
    } else {
      var i := Index(held, e);
      if i < |held| {
        HeldWaits(registry, held, i, Normalise(held, e), log, accepts);
      } else {
        HeldWaits(registry, held + [HeldKey(e, Pending, allowReplay)], i, e, log, accepts);
      }
    }
  }

  // As long as no submit has failed, only keys of registered modifiers are withheld between submits.
  lemma {:induction false} OnlyRegisteredModifiersWait(registry: seq<Registration>, accepts: Accepts,
      xs: seq<Submission>)
    ensures var s := Run(registry, accepts, xs); !s.failed ==> OnlyModifiersWait(registry, s.held)
  {
    if xs != [] {
      var before, x := Run(registry, accepts, xs[..|xs| - 1]), xs[|xs| - 1];
      OnlyRegisteredModifiersWait(registry, accepts, xs[..|xs| - 1]);
      if !before.failed {
        SubmitWaits(registry, before.held, x.event, before.log, accepts, x.allowReplay, x.room);
      }
    }
  }

  lemma HeldKeepsMakes(registry: seq<Registration>, held: seq<HeldKey>, i: nat, e: Event, log: seq<Event>,
      accepts: Accepts)
    requires Makes(held) && i < |held| && e.Key?
    ensures var o := Held(registry, held, i, e, log, accepts);
      |o.held| == |held| && forall k :: 0 <= k < |held| ==> o.held[k].make == held[k].make
  {
  }

  lemma PressFollows(registry: seq<Registration>, held: seq<HeldKey>, e: Event, log: seq<Event>, accepts: Accepts,
      allowReplay: bool, p: Physical)
    requires Ledger(held) && e.Key? && e.pressed
    ensures var o := Press(registry, held, e, log, accepts, allowReplay, true);
      Ledger(o.held) && (InLedger(o.held, p) <==> PhysicalOf(e) == p || InLedger(held, p))
  {
    IndexIsPhysical(held, e);
    var i, h := Index(held, e), HeldKey(e, Pending, allowReplay);
    GrownKeys(held, h, p);
    var base, x := if i < |held| then held else held + [h], Normalise(held, e);
    HeldKeepsMakes(registry, base, i, x, log, accepts);
    SameKeys(base, Held(registry, base, i, x, log, accepts).held, p);
  }

  lemma ReleaseFollows(held: seq<HeldKey>, e: Event, log: seq<Event>, accepts: Accepts, p: Physical)
    requires Ledger(held) && e.Key? && Release(held, e, log, accepts).ok
    ensures var o := Release(held, e, log, accepts);
      Ledger(o.held) && (InLedger(o.held, p) <==> PhysicalOf(e) != p && InLedger(held, p))
  {
    IndexIsPhysical(held, e);
    var i := Index(held, e);
    if i < |held| {
      var base := if held[i].state == Consumed then held else Flush(held, 0, log, accepts).held;
      SameKeys(held, base, p);
      WithoutKey(base, i, p);
    }
  }

  // A submit that succeeds puts a pressed key into the ledger, takes a released one out, and
  // keeps the others.
  lemma SubmitFollows(registry: seq<Registration>, held: seq<HeldKey>, e: Event, log: seq<Event>, accepts: Accepts,
      allowReplay: bool, room: bool, p: Physical)
    requires Ledger(held)
    requires Submit(registry, held, e, log, accepts, allowReplay, room).ok
    ensures var o := Submit(registry, held, e, log, accepts, allowReplay, room);
      && Ledger(o.held)
      && (InLedger(o.held, p) <==> if e.Key? && PhysicalOf(e) == p then e.pressed else InLedger(held, p))
  {
    if !e.Key? {
      SameKeys(held, Submit(registry, held, e, log, accepts, allowReplay, room).held, p);
    } else if e.pressed {
      PressFollows(registry, held, e, log, accepts, allowReplay, p);
    } else {
      ReleaseFollows(held, e, log, accepts, p);
    }
  }

  lemma SameKeys(a: seq<HeldKey>, b: seq<HeldKey>, p: Physical)
    requires Makes(a) && |a| == |b| && forall k :: 0 <= k < |a| ==> b[k].make == a[k].make
    ensures Makes(b) && (InLedger(a, p) <==> InLedger(b, p))
    ensures Ledger(a) ==> Ledger(b)
  {
  }

  lemma GrownKeys(held: seq<HeldKey>, h: HeldKey, p: Physical)
    requires Makes(held) && h.make.Key?
    ensures InLedger(held + [h], p) <==> InLedger(held, p) || PhysicalOf(h.make) == p
    ensures Ledger(held) && h.make.pressed && !InLedger(held, PhysicalOf(h.make)) ==> Ledger(held + [h])
  {
    var grown := held + [h];
    assert grown[|held|] == h && forall k :: 0 <= k < |held| ==> grown[k] == held[k];
  }

  lemma WithoutKey(held: seq<HeldKey>, i: nat, p: Physical)
    requires Ledger(held) && i < |held|
    ensures Ledger(Without(held, i))
    ensures InLedger(Without(held, i), p) <==> InLedger(held, p) && PhysicalOf(held[i].make) != p
  {
    var left := Without(held, i);
    assert forall j :: 0 <= j < |left| ==> left[j] == held[if j < i then j else j + 1];
    if InLedger(held, p) && PhysicalOf(held[i].make) != p {
      var k :| 0 <= k < |held| && PhysicalOf(held[k].make) == p;
      Remaining(held, i, k);
    }
  }

  lemma StepFollows(registry: seq<Registration>, accepts: Accepts, s: State, x: Submission)
    requires Ledger(s.held) && (forall p :: InLedger(s.held, p) <==> After(s.seen, p).DownAs?)
    requires !Step(registry, accepts, s, x).failed
    ensures var t := Step(registry, accepts, s, x);
      Ledger(t.held) && forall p :: InLedger(t.held, p) <==> After(t.seen, p).DownAs?
  {
    var t := Step(registry, accepts, s, x);
    Appended(s.seen, Normalise(s.held, x.event));
    if x.event.Key? { IndexIsPhysical(s.held, x.event); }
    forall p ensures Ledger(t.held) && (InLedger(t.held, p) <==> After(t.seen, p).DownAs?) {
      SubmitFollows(registry, s.held, x.event, s.log, accepts, x.allowReplay, x.room, p);
    }
  }

  // As long as no submit has failed, a key is in the ledger exactly when its last transition
  // in the input was a press.
  lemma {:induction false} LedgerFollowsTheKeys(registry: seq<Registration>, accepts: Accepts, xs: seq<Submission>)
    ensures var s := Run(registry, accepts, xs);
      !s.failed ==> Ledger(s.held) && forall p :: InLedger(s.held, p) <==> After(s.seen, p).DownAs?
  {
    if xs != [] {
      var before, x := Run(registry, accepts, xs[..|xs| - 1]), xs[|xs| - 1];
      LedgerFollowsTheKeys(registry, accepts, xs[..|xs| - 1]);
      if !Run(registry, accepts, xs).failed { StepFollows(registry, accepts, before, x); }
    }
  }

  // So once every key has been released, the ledger is empty.
  lemma AllUpEmptiesTheLedger(registry: seq<Registration>, accepts: Accepts, xs: seq<Submission>)
    requires !Run(registry, accepts, xs).failed && forall p :: After(Run(registry, accepts, xs).seen, p) == Up
    ensures Run(registry, accepts, xs).held == []
  {
    LedgerFollowsTheKeys(registry, accepts, xs);
    var held := Run(registry, accepts, xs).held;
    assert held != [] ==> InLedger(held, PhysicalOf(held[0].make));
  }

  // ---------- chords ----------

  ghost predicate PendingMake(held: seq<HeldKey>, e: Event) {
    exists k :: 0 <= k < |held| && held[k].state == Pending && held[k].allowReplay && held[k].make == e
  }

  // A flush only adds makes of pending keys to the log, and only of those that may be replayed.
  lemma {:induction false} FlushEmits(held: seq<HeldKey>, i: nat, log: seq<Event>, accepts: Accepts)
    requires i <= |held|
    ensures var o := Flush(held, i, log, accepts);
      |log| <= |o.log| && o.log[..|log|] == log && forall j :: |log| <= j < |o.log| ==> PendingMake(held, o.log[j])
    decreases |held| - i
  {
    if i < |held| {
      var now := held[i := held[i].(state := Delivered)];
      assert forall e :: PendingMake(now, e) ==> PendingMake(held, e);
      if held[i].state != Pending {
        FlushEmits(held, i + 1, log, accepts);
      } else if !held[i].allowReplay {
        FlushEmits(now, i + 1, log, accepts);
      } else if accepts(log, held[i].make) {
        var next := log + [held[i].make];
        FlushEmits(now, i + 1, next, accepts);
        assert PendingMake(held, held[i].make);
        assert Flush(now, i + 1, next, accepts).log[|log|] == next[|log|];
      }
    }
  }

  // A log extends an earlier one without a transition of this key.
  ghost predicate SilentOn(log: seq<Event>, after: seq<Event>, p: Physical) {
    && |log| <= |after| && after[..|log|] == log
    && forall j :: |log| <= j < |after| ==> !(after[j].Key? && PhysicalOf(after[j]) == p)
  }

  ghost predicate IsConsumed(held: seq<HeldKey>, p: Physical)
    requires Makes(held)
  {
    exists k :: 0 <= k < |held| && PhysicalOf(held[k].make) == p && held[k].state == Consumed
  }

  lemma FlushSilent(held: seq<HeldKey>, log: seq<Event>, accepts: Accepts, p: Physical)
    requires Ledger(held) && IsConsumed(held, p)
    ensures var o := Flush(held, 0, log, accepts); Ledger(o.held) && SilentOn(log, o.log, p) && IsConsumed(o.held, p)
  {
    var i :| 0 <= i < |held| && PhysicalOf(held[i].make) == p && held[i].state == Consumed;
    var o := Flush(held, 0, log, accepts);
    FlushEmits(held, 0, log, accepts);
    FlushShape(held, 0, log, accepts);
    assert o.held[i].state == Consumed;
    forall j | |log| <= j < |o.log| ensures !(o.log[j].Key? && PhysicalOf(o.log[j]) == p) {
      assert PendingMake(held, o.log[j]);
      var k :| 0 <= k < |held| && held[k].state == Pending && held[k].allowReplay && held[k].make == o.log[j];
    }
  }

  lemma EmitSilent(log: seq<Event>, o: Outcome, e: Event, accepts: Accepts, p: Physical)
    requires SilentOn(log, o.log, p) && !(e.Key? && PhysicalOf(e) == p)
    ensures SilentOn(log, Emit(o, e, accepts).log, p) && Emit(o, e, accepts).held == o.held
  {
  }

  lemma HeldSilent(registry: seq<Registration>, held: seq<HeldKey>, i: nat, e: Event, log: seq<Event>, accepts: Accepts,
      p: Physical)
    requires Ledger(held) && IsConsumed(held, p) && i < |held| && e.Key? && PhysicalOf(e) == PhysicalOf(held[i].make)
    ensures var o := Held(registry, held, i, e, log, accepts); SilentOn(log, o.log, p) && IsConsumed(o.held, p)
  {
    FlushSilent(held, log, accepts, p);
    var k :| 0 <= k < |held| && PhysicalOf(held[k].make) == p && held[k].state == Consumed;
    assert Consume(held)[k] == held[k];
    if held[i].state == Delivered {
      EmitSilent(log, Flush(held, 0, log, accepts), e, accepts, p);
    }
  }

  lemma StillConsumed(held: seq<HeldKey>, k: nat, p: Physical)
    requires Makes(held) && IsConsumed(held, p) && k < |held| && PhysicalOf(held[k].make) != p
    ensures IsConsumed(Without(held, k), p)
  {
    var i :| 0 <= i < |held| && PhysicalOf(held[i].make) == p && held[i].state == Consumed;
    assert Without(held, k)[if i < k then i else i - 1] == held[i];
  }

  lemma ReleaseSilent(held: seq<HeldKey>, e: Event, log: seq<Event>, accepts: Accepts, p: Physical)
    requires Ledger(held) && IsConsumed(held, p) && e.Key?
    ensures var o := Release(held, e, log, accepts);
      && SilentOn(log, o.log, p)
      && (if PhysicalOf(e) == p then !InLedger(o.held, p) else IsConsumed(o.held, p))
  {
    var i :| 0 <= i < |held| && PhysicalOf(held[i].make) == p && held[i].state == Consumed;
    var k := Index(held, e);
    IndexIsPhysical(held, e);
    FlushSilent(held, log, accepts, p);
    if k == i {
      WithoutKey(held, k, p);
    } else if k < |held| {
      var f := Flush(held, 0, log, accepts);
      if held[k].state == Consumed {
        StillConsumed(held, k, p);
      } else {
        EmitSilent(log, f, Normalise(held, e), accepts, p);
        StillConsumed(f.held, k, p);
      }
    }
  }

  // A key that a chord has consumed puts nothing into the output, whatever is submitted, and
  // stays consumed until its own release takes it out of the ledger.
  lemma ConsumedKeysAreSilent(registry: seq<Registration>, held: seq<HeldKey>, e: Event, log: seq<Event>,
      accepts: Accepts, allowReplay: bool, room: bool, p: Physical)
    requires Ledger(held) && IsConsumed(held, p)
    ensures var o := Submit(registry, held, e, log, accepts, allowReplay, room);
      && SilentOn(log, o.log, p)
      && (if e.Key? && PhysicalOf(e) == p && !e.pressed then !InLedger(o.held, p) else IsConsumed(o.held, p))
  {
    if !e.Key? {
      FlushSilent(held, log, accepts, p);
    } else if !e.pressed {
      ReleaseSilent(held, e, log, accepts, p);
    } else {
      IndexIsPhysical(held, e);
      var i := Index(held, e);
      if i < |held| {
        HeldSilent(registry, held, i, Normalise(held, e), log, accepts, p);
      } else {
        var k :| 0 <= k < |held| && PhysicalOf(held[k].make) == p && held[k].state == Consumed;
        var h := HeldKey(e, Pending, allowReplay);
        assert (held + [h])[k] == held[k];
        GrownKeys(held, h, p);
        HeldSilent(registry, held + [h], i, e, log, accepts, p);
      }
    }
  }

  // A submission that releases the key p.
  ghost predicate Releases(x: Submission, p: Physical) { x.event.Key? && !x.event.pressed && PhysicalOf(x.event) == p }

  lemma SilentJoins(a: seq<Event>, b: seq<Event>, c: seq<Event>, p: Physical)
    requires SilentOn(a, b, p) && SilentOn(b, c, p)
    ensures SilentOn(a, c, p)
  {
    assert c[..|a|] == b[..|a|];
    forall j | |a| <= j < |c| ensures !(c[j].Key? && PhysicalOf(c[j]) == p) {
      if j < |b| { assert c[j] == c[..|b|][j]; }
    }
  }

  // From the chord that consumed a key up to its release, a run of any length puts nothing of
  // that key into the output, and the key stays consumed while no submit fails.
  lemma {:induction false} SilentUntilReleased(registry: seq<Registration>, accepts: Accepts, xs: seq<Submission>,
      ys: seq<Submission>, p: Physical)
    requires !Run(registry, accepts, xs).failed && IsConsumed(Run(registry, accepts, xs).held, p)
    requires forall i :: 0 <= i < |ys| ==> !Releases(ys[i], p)
    ensures var s, t := Run(registry, accepts, xs), Run(registry, accepts, xs + ys);
      SilentOn(s.log, t.log, p) && (!t.failed ==> IsConsumed(t.held, p))
    decreases |ys|
  {
    var s := Run(registry, accepts, xs);
    if ys == [] {
      assert xs + ys == xs;
    } else {
      var n := |ys| - 1;
      SilentUntilReleased(registry, accepts, xs, ys[..n], p);
      assert (xs + ys)[..|xs + ys| - 1] == xs + ys[..n] && (xs + ys)[|xs + ys| - 1] == ys[n];
      SilentStep(registry, accepts, xs + ys[..n], ys[n], p, s.log);
    }
  }

  lemma SilentStep(registry: seq<Registration>, accepts: Accepts, zs: seq<Submission>, y: Submission, p: Physical,
      log: seq<Event>)
    requires var t := Run(registry, accepts, zs); SilentOn(log, t.log, p) && (!t.failed ==> IsConsumed(t.held, p))
    ensures var u := Step(registry, accepts, Run(registry, accepts, zs), y);
      && SilentOn(log, u.log, p)
      && (!Run(registry, accepts, zs).failed ==> if Releases(y, p) then !InLedger(u.held, p) else IsConsumed(u.held, p))
  {
    var t := Run(registry, accepts, zs);
    if !t.failed {
      LedgerFollowsTheKeys(registry, accepts, zs);
      ConsumedKeysAreSilent(registry, t.held, y.event, t.log, accepts, y.allowReplay, y.room, p);
      SilentJoins(log, t.log, Step(registry, accepts, t, y).log, p);
    }
  }

  // Its release is silent too, and takes it out of the ledger.
  lemma ReleaseOfConsumedIsSilent(registry: seq<Registration>, accepts: Accepts, xs: seq<Submission>,
      ys: seq<Submission>, y: Submission, p: Physical)
    requires !Run(registry, accepts, xs).failed && IsConsumed(Run(registry, accepts, xs).held, p)
    requires (forall i :: 0 <= i < |ys| ==> !Releases(ys[i], p)) && Releases(y, p)
      && !Run(registry, accepts, xs + ys).failed
    ensures var s, t := Run(registry, accepts, xs), Run(registry, accepts, xs + ys + [y]);
      SilentOn(s.log, t.log, p) && !InLedger(t.held, p)
  {
    SilentUntilReleased(registry, accepts, xs, ys, p);
    SilentStep(registry, accepts, xs + ys, y, p, Run(registry, accepts, xs).log);
    assert (xs + ys + [y])[..|xs + ys|] == xs + ys;
  }

  ghost predicate AcceptsAll(accepts: Accepts) { forall log, e :: accepts(log, e) }

  // A new key, being pending, blocks no chord.
  lemma BlockedGrown(held: seq<HeldKey>, h: HeldKey, modifiers: bv8)
    requires Makes(held) && h.make.Key? && h.state == Pending
    ensures Blocked(held + [h], modifiers) <==> Blocked(held, modifiers)
  {
    assert forall k :: 0 <= k < |held| ==> (held + [h])[k] == held[k];
  }

  lemma HeldFires(registry: seq<Registration>, held: seq<HeldKey>, i: nat, e: Event, log: seq<Event>, accepts: Accepts)
    requires Makes(held) && i < |held| && e.Key? && AcceptsAll(accepts)
    ensures var o := Held(registry, held, i, e, log, accepts);
      (exists j :: |log| <= j < |o.log| && o.log[j].Hotkey?) <==>
        held[i].state != Delivered && !Blocked(held, e.modifiers) && Match(registry, e.key, e.modifiers) < |registry|
  {
    var o, m := Held(registry, held, i, e, log, accepts), Match(registry, e.key, e.modifiers);
    FlushEmits(held, 0, log, accepts);
    if held[i].state != Delivered && !Blocked(held, e.modifiers) && m < |registry| {
      assert o.log[|log|] == Hotkey(e.source, registry[m].identifier);
    }
  }

  // With a sink that accepts, a press fires a hotkey exactly when its key is not already
  // delivered, the chord is registered with exactly these modifiers, and none of its
  // modifiers was given to the guest.
  lemma ChordFires(registry: seq<Registration>, held: seq<HeldKey>, e: Event, log: seq<Event>, accepts: Accepts,
      allowReplay: bool)
    requires Makes(held) && e.Key? && e.pressed && AcceptsAll(accepts)
    ensures var o, x, i := Submit(registry, held, e, log, accepts, allowReplay, true), Normalise(held, e),
      Index(held, e);
      (exists j :: |log| <= j < |o.log| && o.log[j].Hotkey?) <==>
        && (i < |held| ==> held[i].state != Delivered)
        && !Blocked(held, x.modifiers)
        && exists r :: 0 <= r < |registry| && registry[r].key == x.key && registry[r].modifiers == x.modifiers
  {
    var i, x := Index(held, e), Normalise(held, e);
    var grown := held + [HeldKey(e, Pending, allowReplay)];
    if i < |held| {
      HeldFires(registry, held, i, x, log, accepts);
    } else {
      BlockedGrown(held, HeldKey(e, Pending, allowReplay), e.modifiers);
      HeldFires(registry, grown, i, e, log, accepts);
    }
  }
}
