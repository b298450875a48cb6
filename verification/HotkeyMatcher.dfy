/**
 The matcher as it runs: loops over the ledger and the registry that change the ledger in
 place and hand events to a sink that may refuse them.
 */
module HotkeyMatcher {
  import opened HotkeyModel

  const REGISTRY_CAPACITY := 16
  const IDENTIFIER_CAPACITY := 64

  // The receiver of ordinary events and hotkeys.
  class Sink {
    const accepts: Accepts
    var log: seq<Event>

    constructor (accepts: Accepts)
      ensures this.accepts == accepts && log == []
    {
      this.accepts := accepts;
      log := [];
    }

    method Offer(e: Event) returns (ok: bool)
      modifies this`log
      ensures ok == accepts(old(log), e)
      ensures log == if ok then old(log) + [e] else old(log)
    {
      ok := accepts(log, e);
      if ok { log := log + [e]; }
    }
  }

  datatype RegisterResult = Registered | Invalid | Duplicate | Exceeded

  class Registry {
    var entries: seq<Registration>

    // At most sixteen chords, no chord twice.
    ghost predicate Valid()
      reads this
    {
      && |entries| <= REGISTRY_CAPACITY
      && forall i, j :: 0 <= i < j < |entries| ==>
         !(entries[i].key == entries[j].key && entries[i].modifiers == entries[j].modifiers)
    }

    constructor ()
      ensures Valid() && entries == []
    {
      entries := [];
    }

    // Registers a chord unless the key is absent, the identifier does not fit with its
    // terminator, the chord is taken, or the registry is full.
    method Register(key: nat, modifiers: bv8, identifier: seq<bv8>) returns (result: RegisterResult)
      requires Valid()
      modifies this
      ensures Valid()
      ensures result ==
        if key == 0 || |identifier| >= IDENTIFIER_CAPACITY then Invalid
        else if Match(old(entries), key, modifiers) < |old(entries)| then Duplicate
        else if |old(entries)| == REGISTRY_CAPACITY then Exceeded
        else Registered
      ensures entries == if result == Registered then old(entries) + [Registration(key, modifiers, identifier)]
        else old(entries)
    {
      if key == 0 || |identifier| >= IDENTIFIER_CAPACITY { return Invalid; }
      var index := 0;
      while index < |entries|
        invariant index <= |entries|
        invariant forall i :: 0 <= i < index ==> !(entries[i].key == key && entries[i].modifiers == modifiers)
      {
        if entries[index].key == key && entries[index].modifiers == modifiers { return Duplicate; }
        index := index + 1;
      }
      if |entries| == REGISTRY_CAPACITY { return Exceeded; }
      entries := entries + [Registration(key, modifiers, identifier)];
      result := Registered;
    }
  }

  class Matcher {
    const registry: seq<Registration>
    var held: seq<HeldKey>   // in make order
    var capacity: nat
    var failed: bool

    ghost predicate Valid()
      reads this
    {
      Makes(held) && |held| <= capacity
    }

    constructor (registry: seq<Registration>)
      ensures Valid() && this.registry == registry && held == [] && !failed
    {
      this.registry := registry;
      held, capacity, failed := [], 0, false;
    }

    method FlushPending(sink: Sink) returns (ok: bool)
      requires Valid()
      modifies this`held, sink`log
      ensures Valid()
      ensures Outcome(held, sink.log, ok) == Flush(old(held), 0, old(sink.log), sink.accepts)
    {
      var i := 0;
      while i < |held|
        invariant i <= |held| <= capacity && Makes(held)
        invariant Flush(held, i, sink.log, sink.accepts) == Flush(old(held), 0, old(sink.log), sink.accepts)
      {
        var h := held[i];
        if h.state == Pending {
          if h.allowReplay {
            var accepted := sink.Offer(h.make);
            if !accepted { return false; }
          }
          held := held[i := h.(state := Delivered)];
        }
        i := i + 1;
      }
      ok := true;
    }

    method Find(e: Event) returns (index: nat)
      requires Valid() && e.Key?
      ensures index == Index(held, e)
    {
      index := 0;
      while index < |held|
        invariant index <= |held|
        invariant forall i :: 0 <= i < index ==> !SameKey(held[i].make, e)
      {
        if SameKey(held[index].make, e) { return; }
        index := index + 1;
      }
    }

    method Eligible(modifiers: bv8) returns (eligible: bool)
      requires Valid()
      ensures eligible == !Blocked(held, modifiers)
    {
      eligible := true;
      var i := 0;
      while i < |held|
        invariant i <= |held|
        invariant eligible == !exists j ::
          0 <= j < i && held[j].state == Delivered && ModifierBit(held[j].make.key) & modifiers != NO_MODIFIER
      {
        if held[i].state == Delivered && ModifierBit(held[i].make.key) & modifiers != NO_MODIFIER {
          eligible := false;
        }
        i := i + 1;
      }
    }

    method MatchRegistry(key: nat, modifiers: bv8) returns (index: nat)
      ensures index == Match(registry, key, modifiers)
    {
      index := 0;
      while index < |registry|
        invariant index <= |registry|
        invariant forall i :: 0 <= i < index ==> !(registry[i].key == key && registry[i].modifiers == modifiers)
      {
        if registry[index].key == key && registry[index].modifiers == modifiers { return; }
        index := index + 1;
      }
    }

    method RegistryHasModifier(modifier: bv8) returns (found: bool)
      ensures found == HasModifier(registry, modifier)
    {
      if modifier == NO_MODIFIER { return false; }
      var index := 0;
      while index < |registry|
        invariant index <= |registry|
        invariant forall i :: 0 <= i < index ==> registry[i].modifiers & modifier == NO_MODIFIER
      {
        if registry[index].modifiers & modifier != NO_MODIFIER { return true; }
        index := index + 1;
      }
      found := false;
    }

    method ConsumePending()
      requires Valid()
      modifies this`held
      ensures Valid() && held == Consume(old(held))
    {
      var i := 0;
      while i < |held|
        invariant i <= |held| == |old(held)|
        invariant forall j :: 0 <= j < i ==> held[j] == Consume(old(held))[j]
        invariant forall j :: i <= j < |held| ==> held[j] == old(held)[j]
      {
        if held[i].state == Pending {
          held := held[i := held[i].(state := Consumed)];
        }
        i := i + 1;
      }
    }

    // A press of the key at a known position of the ledger.
    method PressHeld(index: nat, e: Event, sink: Sink) returns (ok: bool)
      requires Valid() && index < |held| && e.Key? && e.key == held[index].make.key
      modifies this`held, sink`log
      ensures Valid()
      ensures Outcome(held, sink.log, ok) == Held(registry, old(held), index, e, old(sink.log), sink.accepts)
    {
      if held[index].state == Delivered {
        ok := FlushPending(sink);
        if ok { ok := sink.Offer(e); }
        return;
      }
      var eligible := Eligible(e.modifiers);
      if eligible {
        var matched := MatchRegistry(e.key, e.modifiers);
        if matched < |registry| {
          ConsumePending();
          ok := sink.Offer(Hotkey(e.source, registry[matched].identifier));
          return;
        }
      }
      if held[index].state == Consumed { return true; }
      var withheld := RegistryHasModifier(ModifierBit(e.key));
      if withheld { return true; }
      ok := FlushPending(sink);
    }

    // kvm_hotkey_transition. `memory` says whether a reallocation would succeed.
    method Transition(event: Event, sink: Sink, allowReplay: bool, memory: bool) returns (ok: bool)
      requires Valid() && event.Key?
      modifies this`held, this`capacity, sink`log
      ensures Valid()
      ensures Outcome(held, sink.log, ok) ==
        Submit(registry, old(held), event, old(sink.log), sink.accepts, allowReplay,
               |old(held)| < old(capacity) || memory)
    {
      var index := Find(event);
      var e := event;
      if index != |held| { e := event.(key := held[index].make.key); }
      if !e.pressed {
        if index == |held| { return true; }
        if held[index].state != Consumed {
          ok := FlushPending(sink);
          if ok { ok := sink.Offer(e); }
          if !ok { return false; }
        }
        held := held[..index] + held[index + 1..];
        return true;
      }
      if index == |held| {
        if |held| == capacity {
          if !memory { return false; }
          capacity := if capacity != 0 then capacity * 2 else 8;
        }
        held := held + [HeldKey(e, Pending, allowReplay)];
      }
      ok := PressHeld(index, e, sink);
    }

    // kvm_hotkey_matcher_submit: a failure is latched and refuses everything after it.
    method SubmitEvent(event: Event, sink: Sink, allowReplay: bool, memory: bool) returns (delivered: bool)
      requires Valid()
      modifies this, sink`log
      ensures Valid()
      ensures old(failed) ==> !delivered && failed && held == old(held) && sink.log == old(sink.log)
      ensures !old(failed) ==> failed == !delivered
      ensures !old(failed) ==>
        Outcome(held, sink.log, delivered) ==
        Submit(registry, old(held), event, old(sink.log), sink.accepts, allowReplay,
               |old(held)| < old(capacity) || memory)
    {
      if failed { return false; }
      if event.Key? {
        delivered := Transition(event, sink, allowReplay, memory);
      } else {
        delivered := true;
        if event.Text? { delivered := FlushPending(sink); }
        if delivered { delivered := sink.Offer(event); }
      }
      if !delivered { failed := true; }
    }

    // kvm_hotkey_matcher_discard: an empty, usable matcher again.
    method Discard()
      modifies this
      ensures Valid() && held == [] && !failed
    {
      held, capacity, failed := [], 0, false;
    }
  }
}
