/**
 An account of the hotkey matcher without its ledger: what went in, what came out, the makes that
 wait and the keys a chord has taken. With replay allowed and a sink that accepts, the matcher puts
 out exactly what the account says, so nothing is lost but what the account drops.
 */
module HotkeyAccount {
  import opened HotkeyModel
  import opened HotkeyProof
  import opened HotkeyOrder

  datatype Account = Account(out: seq<Event>, waiting: seq<Event>, taken: set<Physical>)

  ghost function Physicals(events: seq<Event>): set<Physical> {
    set i | 0 <= i < |events| && events[i].Key? :: PhysicalOf(events[i])
  }

  // A key of one of these modifiers is down in the output.
  ghost predicate ModifierGiven(out: seq<Event>, modifiers: bv8) {
    exists q :: After(out, q).DownAs? && IsModifier(After(out, q).key, modifiers)
  }

  predicate IsModifier(key: nat, modifiers: bv8) { ModifierBit(key) & modifiers != NO_MODIFIER }

  // A press fires a chord: its key is up in the output, so are the modifiers of the chord, and
  // exactly this chord is registered.
  ghost predicate Fires(registry: seq<Registration>, out: seq<Event>, e: Event)
    requires e.Key?
  {
    && After(out, PhysicalOf(e)) == Up && !ModifierGiven(out, e.modifiers)
    && exists r :: 0 <= r < |registry| && registry[r].key == e.key && registry[r].modifiers == e.modifiers
  }

  // What waits is put out in order, then the event.
  function PutOut(a: Account, e: Event): Account { a.(out := a.out + a.waiting + [e], waiting := []) }

  // One more input, after the inputs `seen`. Only three kinds of key events are dropped: those of a
  // key taken by a chord, repeats of a make that waits, and breaks of keys that are up.
  ghost function Enters(registry: seq<Registration>, a: Account, seen: seq<Event>, e: Event): Account {
    if e.Text? then PutOut(a, e)
    else if !e.Key? then a.(out := a.out + [e])
    else
      var p := PhysicalOf(e);
      if !e.pressed then
        (if After(seen, p) == Up then a
         else if p in a.taken then a.(taken := a.taken - {p})
         else PutOut(a, e))
      else if Fires(registry, a.out, e) then
        var chord := Hotkey(e.source, registry[Match(registry, e.key, e.modifiers)].identifier);
        Account(a.out + [chord], [], a.taken + Physicals(a.waiting) + {p})
      else if p in a.taken || p in Physicals(a.waiting) then a
      else if After(seen, p) == Up && Withheld(registry, e.key) then a.(waiting := a.waiting + [e])
      else PutOut(a, e)
  }

  ghost function AccountOf(registry: seq<Registration>, seen: seq<Event>): Account {
    if seen == [] then Account([], [], {})
    else Enters(registry, AccountOf(registry, seen[..|seen| - 1]), seen[..|seen| - 1], seen[|seen| - 1])
  }

  // ---------- the ledger against the account ----------

  // The ledger and the log say what the account says.
  ghost predicate Agree(held: seq<HeldKey>, log: seq<Event>, a: Account)
    requires Makes(held)
  {
    log == a.out && Waiting(held) == a.waiting && forall p :: p in a.taken <==> IsConsumed(held, p)
  }

  ghost predicate IsPending(held: seq<HeldKey>, p: Physical)
    requires Makes(held)
  {
    exists k :: 0 <= k < |held| && PhysicalOf(held[k].make) == p && held[k].state == Pending
  }

  // A flush puts out all that waits.
  lemma {:induction false} FlushAll(held: seq<HeldKey>, i: nat, log: seq<Event>, accepts: Accepts)
    requires AcceptsAll(accepts) && Replayable(held) && i <= |held|
    ensures var o := Flush(held, i, log, accepts); o.ok && o.log == log + Waiting(held[i..])
    decreases |held| - i
  {
    if i < |held| {
      var now := held[i := held[i].(state := Delivered)];
      assert held[i..][1..] == held[i + 1..] == now[i + 1..];
      if held[i].state != Pending {
        FlushAll(held, i + 1, log, accepts);
      } else {
        FlushAll(now, i + 1, log + [held[i].make], accepts);
      }
    }
  }

  lemma {:induction false} FlushIs(held: seq<HeldKey>, log: seq<Event>, accepts: Accepts)
    requires AcceptsAll(accepts) && Replayable(held) && Makes(held)
    ensures var o := Flush(held, 0, log, accepts);
      && o.ok && o.log == log + Waiting(held) && Waiting(o.held) == [] && Makes(o.held)
      && (forall p :: IsConsumed(o.held, p) <==> IsConsumed(held, p))
  {
    FlushAll(held, 0, log, accepts);
    FlushShape(held, 0, log, accepts);
    assert held[0..] == held;
    var o := Flush(held, 0, log, accepts);
    NoneWaiting(o.held);
    assert forall k :: 0 <= k < |held| ==> (o.held[k].state == Consumed <==> held[k].state == Consumed);
  }

  lemma {:induction false} WaitingArePending(held: seq<HeldKey>, p: Physical)
    requires Makes(held) && Replayable(held)
    ensures p in Physicals(Waiting(held)) <==> IsPending(held, p)
  {
    if held != [] {
      var rest := held[1..];
      WaitingArePending(rest, p);
      var w := Waiting(rest);
      if held[0].state == Pending {
        assert Waiting(held) == [held[0].make] + w;
        PhysicalsMore(held[0].make, w);
      } else {
        assert Waiting(held) == w;
      }
      var first := held[0].state == Pending && PhysicalOf(held[0].make) == p;
      assert IsPending(held, p) <==> first || IsPending(rest, p) by {
        if IsPending(rest, p) {
          var k :| 0 <= k < |rest| && PhysicalOf(rest[k].make) == p && rest[k].state == Pending;
          assert held[k + 1] == rest[k];
        }
        if IsPending(held, p) {
          var k :| 0 <= k < |held| && PhysicalOf(held[k].make) == p && held[k].state == Pending;
          assert k > 0 ==> rest[k - 1] == held[k];
        }
      }
    }
  }

  lemma {:induction false} PhysicalsMore(e: Event, w: seq<Event>)
    requires e.Key?
    ensures Physicals([e] + w) == {PhysicalOf(e)} + Physicals(w)
  {
    var all := [e] + w;
    assert all[0] == e;
    forall p | p in Physicals(w) ensures p in Physicals(all) {
      var i :| 0 <= i < |w| && w[i].Key? && PhysicalOf(w[i]) == p;
      assert all[i + 1] == w[i];
    }
    forall p | p in Physicals(all) ensures p in {PhysicalOf(e)} + Physicals(w) {
      var i :| 0 <= i < |all| && all[i].Key? && PhysicalOf(all[i]) == p;
      assert i > 0 ==> all[i] == w[i - 1];
    }
  }

  lemma {:induction false} ConsumeIs(held: seq<HeldKey>)
    requires Makes(held)
    ensures Waiting(Consume(held)) == [] && Makes(Consume(held))
    ensures forall q :: IsConsumed(Consume(held), q) <==> IsConsumed(held, q) || IsPending(held, q)
  {
    var now := Consume(held);
    NoneWaiting(now);
    forall q ensures IsConsumed(now, q) <==> IsConsumed(held, q) || IsPending(held, q) {
      if IsConsumed(held, q) {
        var k :| 0 <= k < |held| && PhysicalOf(held[k].make) == q && held[k].state == Consumed;
        assert now[k] == held[k];
      }
      if IsPending(held, q) {
        var k :| 0 <= k < |held| && PhysicalOf(held[k].make) == q && held[k].state == Pending;
        assert now[k].make == held[k].make && now[k].state == Consumed;
      }
    }
  }

  // One entry leaves the ledger.
  lemma {:induction false} WithoutIs(held: seq<HeldKey>, i: nat, q: Physical)
    requires Ledger(held) && i < |held|
    ensures Makes(Without(held, i))
    ensures IsConsumed(Without(held, i), q) <==> IsConsumed(held, q) && q != PhysicalOf(held[i].make)
  {
    var left := Without(held, i);
    assert forall j :: 0 <= j < |left| ==> left[j] == held[if j < i then j else j + 1];
    if IsConsumed(held, q) && q != PhysicalOf(held[i].make) { StillConsumed(held, i, q); }
  }

  // One entry joins it, pending.
  lemma {:induction false} GrownIs(held: seq<HeldKey>, h: HeldKey)
    requires Makes(held) && h.make.Key? && h.state == Pending && h.allowReplay
    ensures Waiting(held + [h]) == Waiting(held) + [h.make]
    ensures forall q :: IsConsumed(held + [h], q) <==> IsConsumed(held, q)
    ensures forall q :: IsPending(held + [h], q) <==> IsPending(held, q) || q == PhysicalOf(h.make)
  {
    var grown := held + [h];
    WaitingSplit(held, [h]);
    assert grown[|held|] == h && forall k :: 0 <= k < |held| ==> grown[k] == held[k];
  }

  // What the ledger says of a key follows from its entry.
  lemma {:induction false} EntryDecides(held: seq<HeldKey>, i: nat)
    requires Ledger(held) && i < |held|
    ensures var p := PhysicalOf(held[i].make);
      && (IsConsumed(held, p) <==> held[i].state == Consumed) && (IsPending(held, p) <==> held[i].state == Pending)
  {
  }

  // A modifier blocks a chord by the ledger exactly when it is down in the output.
  lemma {:induction false} BlockedIsGiven(held: seq<HeldKey>, modifiers: bv8, log: seq<Event>)
    requires Mirrors(held, log)
    ensures Blocked(held, modifiers) <==> ModifierGiven(log, modifiers)
  {
    if Blocked(held, modifiers) {
      var k :| 0 <= k < |held| && held[k].state == Delivered
        && ModifierBit(held[k].make.key) & modifiers != NO_MODIFIER;
      GivenBy(held, k, modifiers, log);
    }
    if ModifierGiven(log, modifiers) {
      var q :| After(log, q).DownAs? && IsModifier(After(log, q).key, modifiers);
      assert InLedger(held, q);
      var k :| 0 <= k < |held| && PhysicalOf(held[k].make) == q;
      assert EntryMirrors(held[k], log);
    }
  }

  lemma {:induction false} GivenBy(held: seq<HeldKey>, k: nat, modifiers: bv8, log: seq<Event>)
    requires Mirrors(held, log) && k < |held| && held[k].state == Delivered && IsModifier(held[k].make.key, modifiers)
    ensures ModifierGiven(log, modifiers)
  {
    var q := PhysicalOf(held[k].make);
    assert EntryMirrors(held[k], log);
    assert After(log, q).DownAs? && IsModifier(After(log, q).key, modifiers);
  }

  // A chord fires by the ledger exactly when it does by the output.
  lemma {:induction false} FiresIs(registry: seq<Registration>, held: seq<HeldKey>, i: nat, e: Event, log: seq<Event>)
    requires Mirrors(held, log) && i < |held| && e.Key? && PhysicalOf(e) == PhysicalOf(held[i].make)
    ensures Fires(registry, log, e) <==>
      held[i].state != Delivered && !Blocked(held, e.modifiers) && Match(registry, e.key, e.modifiers) < |registry|
  {
    BlockedIsGiven(held, e.modifiers, log);
    assert EntryMirrors(held[i], log);
  }

  // ---------- one submit ----------

  // What holds between the submits of a run.
  ghost predicate Between(registry: seq<Registration>, held: seq<HeldKey>, log: seq<Event>, seen: seq<Event>) {
    && Mirrors(held, log) && Replayable(held) && OnlyModifiersWait(registry, held)
    && forall p :: InLedger(held, p) <==> After(seen, p).DownAs?
  }

  lemma {:induction false} OtherEnters(registry: seq<Registration>, held: seq<HeldKey>, e: Event, log: seq<Event>,
      seen: seq<Event>,
      accepts: Accepts, a: Account)
    requires AcceptsAll(accepts) && Between(registry, held, log, seen) && Agree(held, log, a) && !e.Key?
    ensures var o := Submit(registry, held, e, log, accepts, true, true);
      o.ok && Agree(o.held, o.log, Enters(registry, a, seen, e))
  {
    FlushIs(held, log, accepts);
  }

  lemma {:induction false} ReleaseEnters(registry: seq<Registration>, held: seq<HeldKey>, e: Event, log: seq<Event>,
      seen: seq<Event>,
      accepts: Accepts, a: Account)
    requires AcceptsAll(accepts) && Between(registry, held, log, seen) && Agree(held, log, a) && e.Key? && !e.pressed
    ensures var o := Release(held, e, log, accepts);
      o.ok && Agree(o.held, o.log, Enters(registry, a, seen, Normalise(held, e)))
  {
    var i := Index(held, e);
    IndexIsPhysical(held, e);
    if i < |held| {
      EntryDecides(held, i);
      assert InLedger(held, PhysicalOf(e));
      if held[i].state == Consumed {
        WaitingWithout(held, i);
        forall q ensures IsConsumed(Without(held, i), q) <==> IsConsumed(held, q) && q != PhysicalOf(e) {
          WithoutIs(held, i, q);
        }
      } else {
        BreakEnters(held, i, log, accepts);
      }
    }
  }

  // After a flush an entry that no chord has taken leaves without a trace.
  lemma {:induction false} BreakEnters(held: seq<HeldKey>, i: nat, log: seq<Event>, accepts: Accepts)
    requires AcceptsAll(accepts) && Ledger(held) && Replayable(held) && i < |held| && held[i].state != Consumed
    ensures var f := Flush(held, 0, log, accepts);
      && f.ok && f.log == log + Waiting(held) && Makes(Without(f.held, i)) && Waiting(Without(f.held, i)) == []
      && forall q :: IsConsumed(Without(f.held, i), q) <==> IsConsumed(held, q)
  {
    FlushIs(held, log, accepts);
    FlushShape(held, 0, log, accepts);
    var f := Flush(held, 0, log, accepts);
    SameKeys(held, f.held, PhysicalOf(held[i].make));
    WaitingWithout(f.held, i);
    EntryDecides(held, i);
    forall q ensures IsConsumed(Without(f.held, i), q) <==> IsConsumed(held, q) {
      WithoutIs(f.held, i, q);
    }
  }

  // A press of a key that is already down, as the matcher's branches have it.
  lemma {:induction false} AgainIs(registry: seq<Registration>, held: seq<HeldKey>, i: nat, x: Event, log: seq<Event>,
      accepts: Accepts)
    requires AcceptsAll(accepts) && Mirrors(held, log) && Replayable(held) && OnlyModifiersWait(registry, held)
    requires i < |held| && x.Key? && PhysicalOf(x) == PhysicalOf(held[i].make) && x.key == held[i].make.key
    ensures Held(registry, held, i, x, log, accepts) ==
      if held[i].state == Delivered then
        Outcome(Flush(held, 0, log, accepts).held, log + Waiting(held) + [x], true)
      else if Fires(registry, log, x) then
        Outcome(Consume(held), log + [Hotkey(x.source, registry[Match(registry, x.key, x.modifiers)].identifier)], true)
      else Outcome(held, log, true)
  {
    FiresIs(registry, held, i, x, log);
    FlushIs(held, log, accepts);
  }

  lemma {:induction false} AgainEnters(registry: seq<Registration>, held: seq<HeldKey>, i: nat, x: Event,
      log: seq<Event>,
      seen: seq<Event>, accepts: Accepts, a: Account)
    requires AcceptsAll(accepts) && Between(registry, held, log, seen) && Agree(held, log, a)
    requires i < |held| && x.Key? && x.pressed && PhysicalOf(x) == PhysicalOf(held[i].make) && x.key == held[i].make.key
    ensures var o := Held(registry, held, i, x, log, accepts);
      o.ok && Agree(o.held, o.log, Enters(registry, a, seen, x))
  {
    var p := PhysicalOf(x);
    assert InLedger(held, p);
    EntryDecides(held, i);
    assert EntryMirrors(held[i], log);
    AgainIs(registry, held, i, x, log, accepts);
    WaitingArePending(held, p);
    if held[i].state == Delivered {
      FlushIs(held, log, accepts);
    } else if Fires(registry, log, x) {
      ChordEnters(held, p, a);
    }
  }

  // A chord takes what waits, and the key that made it.
  lemma {:induction false} ChordEnters(held: seq<HeldKey>, p: Physical, a: Account)
    requires Makes(held) && Replayable(held) && (forall q :: q in a.taken <==> IsConsumed(held, q))
    requires Waiting(held) == a.waiting && (IsConsumed(held, p) || IsPending(held, p))
    ensures Makes(Consume(held)) && Waiting(Consume(held)) == []
    ensures forall q :: q in a.taken + Physicals(a.waiting) + {p} <==> IsConsumed(Consume(held), q)
  {
    ConsumeIs(held);
    forall q ensures q in a.taken + Physicals(a.waiting) + {p} <==> IsConsumed(Consume(held), q) {
      WaitingArePending(held, q);
    }
  }

  // A first press, likewise.
  lemma {:induction false} FirstIs(registry: seq<Registration>, held: seq<HeldKey>, h: HeldKey, log: seq<Event>,
      accepts: Accepts)
    requires AcceptsAll(accepts) && Mirrors(held, log) && Replayable(held) && h.make.Key? && h.make.pressed
    requires !InLedger(held, PhysicalOf(h.make)) && h.state == Pending && h.allowReplay
    ensures var grown, x := held + [h], h.make;
      Held(registry, grown, |held|, x, log, accepts) ==
        if Fires(registry, log, x) then
          Outcome(Consume(grown), log + [Hotkey(x.source, registry[Match(registry, x.key, x.modifiers)].identifier)],
            true)
        else if Withheld(registry, x.key) then Outcome(grown, log, true)
        else Flush(grown, 0, log, accepts)
  {
    Enter(held, log, h);
    FiresIs(registry, held + [h], |held|, h.make, log);
  }

  lemma {:induction false} FirstFires(registry: seq<Registration>, held: seq<HeldKey>, x: Event, log: seq<Event>,
      seen: seq<Event>, accepts: Accepts, a: Account)
    requires AcceptsAll(accepts) && Between(registry, held, log, seen) && Agree(held, log, a)
    requires x.Key? && x.pressed && !InLedger(held, PhysicalOf(x)) && Fires(registry, log, x)
    ensures var o := Held(registry, held + [HeldKey(x, Pending, true)], |held|, x, log, accepts);
      o.ok && Agree(o.held, o.log, Enters(registry, a, seen, x))
  {
    var h := HeldKey(x, Pending, true);
    FirstIs(registry, held, h, log, accepts);
    FirstChord(held, h, a);
  }

  // What the account says of a first press that fires nothing.
  lemma {:induction false} JoinedIs(registry: seq<Registration>, held: seq<HeldKey>, x: Event, log: seq<Event>,
      seen: seq<Event>, a: Account)
    requires Between(registry, held, log, seen) && Agree(held, log, a)
    requires x.Key? && x.pressed && !InLedger(held, PhysicalOf(x)) && !Fires(registry, log, x)
    ensures Enters(registry, a, seen, x) ==
      if Withheld(registry, x.key) then a.(waiting := a.waiting + [x]) else PutOut(a, x)
  {
    FreshKey(held, log, a, PhysicalOf(x));
    assert After(seen, PhysicalOf(x)) == Up;
  }

  lemma {:induction false} FirstWaits(registry: seq<Registration>, held: seq<HeldKey>, x: Event, log: seq<Event>,
      seen: seq<Event>, accepts: Accepts, a: Account)
    requires AcceptsAll(accepts) && Between(registry, held, log, seen) && Agree(held, log, a)
    requires x.Key? && x.pressed && !InLedger(held, PhysicalOf(x)) && !Fires(registry, log, x)
    requires Withheld(registry, x.key)
    ensures var o := Held(registry, held + [HeldKey(x, Pending, true)], |held|, x, log, accepts);
      o.ok && Agree(o.held, o.log, Enters(registry, a, seen, x))
  {
    var h := HeldKey(x, Pending, true);
    FirstIs(registry, held, h, log, accepts);
    GrownIs(held, h);
    JoinedIs(registry, held, x, log, seen, a);
  }

  lemma {:induction false} FirstPuts(registry: seq<Registration>, held: seq<HeldKey>, x: Event, log: seq<Event>,
      seen: seq<Event>, accepts: Accepts, a: Account)
    requires AcceptsAll(accepts) && Between(registry, held, log, seen) && Agree(held, log, a)
    requires x.Key? && x.pressed && !InLedger(held, PhysicalOf(x)) && !Fires(registry, log, x)
    requires !Withheld(registry, x.key)
    ensures var o := Held(registry, held + [HeldKey(x, Pending, true)], |held|, x, log, accepts);
      o.ok && Agree(o.held, o.log, Enters(registry, a, seen, x))
  {
    var h := HeldKey(x, Pending, true);
    FirstIs(registry, held, h, log, accepts);
    GrownIs(held, h);
    JoinedIs(registry, held, x, log, seen, a);
    FlushIs(held + [h], log, accepts);
    assert log + (a.waiting + [x]) == log + a.waiting + [x];
  }

  lemma {:induction false} FreshKey(held: seq<HeldKey>, log: seq<Event>, a: Account, p: Physical)
    requires Makes(held) && Replayable(held) && Agree(held, log, a) && !InLedger(held, p)
    ensures p !in a.taken && p !in Physicals(a.waiting)
  {
    WaitingArePending(held, p);
  }

  lemma {:induction false} FirstEnters(registry: seq<Registration>, held: seq<HeldKey>, x: Event, log: seq<Event>,
      seen: seq<Event>, accepts: Accepts, a: Account)
    requires AcceptsAll(accepts) && Between(registry, held, log, seen) && Agree(held, log, a)
    requires x.Key? && x.pressed && !InLedger(held, PhysicalOf(x))
    ensures var o := Held(registry, held + [HeldKey(x, Pending, true)], |held|, x, log, accepts);
      o.ok && Agree(o.held, o.log, Enters(registry, a, seen, x))
  {
    if Fires(registry, log, x) {
      FirstFires(registry, held, x, log, seen, accepts, a);
    } else if Withheld(registry, x.key) {
      FirstWaits(registry, held, x, log, seen, accepts, a);
    } else {
      FirstPuts(registry, held, x, log, seen, accepts, a);
    }
  }

  lemma {:induction false} FirstChord(held: seq<HeldKey>, h: HeldKey, a: Account)
    requires Makes(held) && Replayable(held) && h.make.Key? && h.state == Pending && h.allowReplay
    requires Waiting(held) == a.waiting && (forall q :: q in a.taken <==> IsConsumed(held, q))
    ensures var now := Consume(held + [h]);
      && Makes(now) && Waiting(now) == []
      && forall q :: q in a.taken + Physicals(a.waiting) + {PhysicalOf(h.make)} <==> IsConsumed(now, q)
  {
    GrownIs(held, h);
    ConsumeIs(held + [h]);
    forall q ensures q in a.taken + Physicals(a.waiting) + {PhysicalOf(h.make)} <==>
      IsConsumed(Consume(held + [h]), q) {
      WaitingArePending(held, q);
    }
  }

  lemma {:induction false} SubmitEnters(registry: seq<Registration>, held: seq<HeldKey>, e: Event, log: seq<Event>,
      seen: seq<Event>,
      accepts: Accepts, a: Account)
    requires AcceptsAll(accepts) && Between(registry, held, log, seen) && Agree(held, log, a)
    ensures var o := Submit(registry, held, e, log, accepts, true, true);
      o.ok && Agree(o.held, o.log, Enters(registry, a, seen, Normalise(held, e)))
  {
    if !e.Key? {
      OtherEnters(registry, held, e, log, seen, accepts, a);
    } else if !e.pressed {
      ReleaseEnters(registry, held, e, log, seen, accepts, a);
    } else {
      IndexIsPhysical(held, e);
      var i := Index(held, e);
      if i < |held| {
        AgainEnters(registry, held, i, Normalise(held, e), log, seen, accepts, a);
      } else {
        FirstEnters(registry, held, e, log, seen, accepts, a);
      }
    }
  }

  // ---------- every run ----------

  ghost predicate Granted(xs: seq<Submission>) { forall i :: 0 <= i < |xs| ==> xs[i].allowReplay && xs[i].room }

  // In every run with replay allowed and nothing refused, no submit fails, and what came out and
  // what waits are what the account of the input says.
  lemma {:induction false} AccountIsExact(registry: seq<Registration>, accepts: Accepts, xs: seq<Submission>)
    requires AcceptsAll(accepts) && Granted(xs)
    ensures var s := Run(registry, accepts, xs); !s.failed && Agree(s.held, s.log, AccountOf(registry, s.seen))
  {
    if xs != [] {
      var n := |xs| - 1;
      var before, x := Run(registry, accepts, xs[..n]), xs[n];
      AccountIsExact(registry, accepts, xs[..n]);
      OutputMirrorsLedger(registry, accepts, xs[..n]);
      OnlyRegisteredModifiersWait(registry, accepts, xs[..n]);
      LedgerFollowsTheKeys(registry, accepts, xs[..n]);
      SubmitEnters(registry, before.held, x.event, before.log, before.seen, accepts, AccountOf(registry, before.seen));
      var e := Normalise(before.held, x.event);
      assert (before.seen + [e])[..|before.seen|] == before.seen;
    }
  }

  // ---------- what the account loses ----------

  lemma {:induction false} VisibleKeys(events: seq<Event>, keys: seq<Event>)
    requires forall i :: 0 <= i < |keys| ==> keys[i].Key?
    ensures Visible(events + keys) == Visible(events) + keys
  {
    if keys == [] {
      assert events + keys == events;
    } else {
      var n := |keys| - 1;
      var last := keys[n];
      VisibleKeys(events, keys[..n]);
      VisibleAppended(events + keys[..n], last);
      LastOf(events, keys);
      LastOf(Visible(events), keys);
    }
  }

  lemma {:induction false} LastOf(a: seq<Event>, b: seq<Event>)
    requires b != []
    ensures a + b == a + b[..|b| - 1] + [b[|b| - 1]]
  {
  }

  // A key or text event is part of the keyboard stream, which is what came out followed by what
  // waits, but for exactly three kinds: the events of a key that a chord has taken, with the makes
  // that waited when it fired; the repeats of a make that waits; and the breaks of keys that are up.
  lemma {:induction false} OnlyThreeKinds(registry: seq<Registration>, a: Account, seen: seq<Event>, e: Event)
    requires (e.Key? || e.Text?) && forall i :: 0 <= i < |a.waiting| ==> a.waiting[i].Key?
    ensures var b := Enters(registry, a, seen, e);
      var was, now := Visible(a.out) + a.waiting, Visible(b.out) + b.waiting;
      if e.Key? && e.pressed && Fires(registry, a.out, e) then now == Visible(a.out)
      else if e.Key? && PhysicalOf(e) in a.taken && (e.pressed || After(seen, PhysicalOf(e)) != Up) then now == was
      else if e.Key? && e.pressed && PhysicalOf(e) in Physicals(a.waiting) then now == was
      else if e.Key? && !e.pressed && After(seen, PhysicalOf(e)) == Up then now == was
      else now == was + [e]
  {
    VisibleKeys(a.out, a.waiting);
    VisibleAppended(a.out + a.waiting, e);
    if e.Key? && e.pressed && Fires(registry, a.out, e) {
      VisibleAppended(a.out, Hotkey(e.source, registry[Match(registry, e.key, e.modifiers)].identifier));
    }
  }

  // The input without the breaks of keys that are up.
  ghost function Straight(seen: seq<Event>): seq<Event> {
    if seen == [] then []
    else
      var rest, e := seen[..|seen| - 1], seen[|seen| - 1];
      if e.Key? && !e.pressed && After(rest, PhysicalOf(e)) == Up then Straight(rest) else Straight(rest) + [e]
  }

  lemma {:induction false} StraightAccount(seen: seq<Event>)
    ensures AccountOf([], seen) == Account(Straight(seen), [], {})
  {
    if seen != [] {
      StraightAccount(seen[..|seen| - 1]);
      assert Straight(seen[..|seen| - 1]) + [] == Straight(seen[..|seen| - 1]);
    }
  }

  // Without registrations the matcher is transparent: every event comes out, at once and in order,
  // but for the breaks of keys that are up.
  lemma {:induction false} TransparentWithoutHotkeys(accepts: Accepts, xs: seq<Submission>)
    requires AcceptsAll(accepts) && Granted(xs)
    ensures var s := Run([], accepts, xs); s.log == Straight(s.seen) && Waiting(s.held) == []
  {
    AccountIsExact([], accepts, xs);
    StraightAccount(Run([], accepts, xs).seen);
  }

  lemma {:induction false} AccountMore(registry: seq<Registration>, seen: seq<Event>, e: Event)
    ensures AccountOf(registry, seen + [e]) == Enters(registry, AccountOf(registry, seen), seen, e)
  {
    assert (seen + [e])[..|seen|] == seen;
  }

  lemma {:induction false} ModifierWaits(registry: seq<Registration>, c: Event)
    requires c.Key? && c.pressed && Withheld(registry, c.key) && Match(registry, c.key, c.modifiers) == |registry|
    ensures Enters(registry, Account([], [], {}), [], c) == Account([], [c], {})
  {
  }

  lemma {:induction false} WithheldBy(registry: seq<Registration>, r: nat, key: nat)
    requires r < |registry| && IsModifier(key, registry[r].modifiers)
    ensures Withheld(registry, key)
  {
    Overlaps(registry[r].modifiers, ModifierBit(key));
  }

  lemma {:induction false} TwoEnter(registry: seq<Registration>, c: Event, k: Event, a: Account)
    requires Enters(registry, Account([], [], {}), [], c) == a
    ensures AccountOf(registry, [] + [c]) == a && AccountOf(registry, [] + [c] + [k]) == Enters(registry, a, [c], k)
  {
    AccountMore(registry, [], c);
    AccountMore(registry, [] + [c], k);
    assert [] + [c] == [c];
  }

  // A registered chord can be typed: its modifier waits, and with the key the chord comes out and
  // nothing else.
  lemma {:induction false} ChordCanBeTyped(registry: seq<Registration>, r: nat, c: Event, k: Event)
    requires r < |registry| && c.Key? && c.pressed && k.Key? && k.pressed
    requires registry[r].key == k.key && registry[r].modifiers == k.modifiers && IsModifier(c.key, k.modifiers)
    requires Match(registry, c.key, c.modifiers) == |registry| && Match(registry, k.key, k.modifiers) == r
    ensures AccountOf(registry, [] + [c]) == Account([], [c], {})
    ensures AccountOf(registry, [] + [c] + [k]) ==
      Account([] + [Hotkey(k.source, registry[r].identifier)], [], {PhysicalOf(c), PhysicalOf(k)})
  {
    WithheldBy(registry, r, c.key);
    ModifierWaits(registry, c);
    KeyFires(registry, r, c, k);
    TwoEnter(registry, c, k, Account([], [c], {}));
  }

  lemma {:induction false} KeyFires(registry: seq<Registration>, r: nat, c: Event, k: Event)
    requires r < |registry| && c.Key? && k.Key? && k.pressed && Match(registry, k.key, k.modifiers) == r
    requires registry[r].key == k.key && registry[r].modifiers == k.modifiers
    ensures Enters(registry, Account([], [c], {}), [c], k) ==
      Account([] + [Hotkey(k.source, registry[r].identifier)], [], {PhysicalOf(c), PhysicalOf(k)})
  {
    assert Fires(registry, [], k);
    PhysicalsMore(c, []);
    assert [c] + [] == [c];
  }

  lemma {:induction false} Overlaps(a: bv8, b: bv8)
    requires b & a != NO_MODIFIER
    ensures a & b != NO_MODIFIER && b != NO_MODIFIER
  {
  }
}
