/**
 The hotkey matcher: a ledger of held keys that withholds, replays or swallows key
 transitions. These functions say what one submit does to the ledger and to the sink.
 */
module HotkeyModel {

  // Key, text and the events the matcher only passes through.
  datatype Event =
    | Key(source: nat, scan: nat, key: nat, flags: bv32, modifiers: bv8, pressed: bool)
    | Text(source: nat, scalar: nat)
    | Hotkey(source: nat, identifier: seq<bv8>)
    | Other(source: nat, tag: nat)

  datatype Disposition = Pending | Delivered | Consumed

  datatype HeldKey = HeldKey(make: Event, state: Disposition, allowReplay: bool)

  datatype Registration = Registration(key: nat, modifiers: bv8, identifier: seq<bv8>)

  const KEY_SHIFT := 0x00030003
  const KEY_CONTROL := 0x00030004
  const KEY_ALT := 0x00030005
  const FLAG_EXTENDED: bv32 := 1
  const NO_MODIFIER: bv8 := 0

  function ModifierBit(key: nat): bv8 {
    if key == KEY_CONTROL then 1 else if key == KEY_ALT then 2 else if key == KEY_SHIFT then 4 else 0
  }

  predicate SameKey(a: Event, b: Event)
    requires a.Key? && b.Key?
  {
    if a.flags & FLAG_EXTENDED != b.flags & FLAG_EXTENDED then false
    else if a.scan != 0 || b.scan != 0 then a.scan == b.scan
    else a.key == b.key
  }

  // A ledger holds makes, which are key events.
  ghost predicate Makes(held: seq<HeldKey>) {
    forall i :: 0 <= i < |held| ==> held[i].make.Key?
  }

  // The position of a key in the ledger, or its length.
  function Index(held: seq<HeldKey>, e: Event): (r: nat)
    requires Makes(held) && e.Key?
    ensures r <= |held|
    ensures forall i :: 0 <= i < r ==> !SameKey(held[i].make, e)
    ensures r < |held| ==> SameKey(held[r].make, e)
  {
    if held == [] then 0
    else if SameKey(held[0].make, e) then 0
    else 1 + Index(held[1..], e)
  }

  // A transition of a key that is already held keeps the key code of its make.
  function Normalise(held: seq<HeldKey>, e: Event): (r: Event)
    requires Makes(held)
    ensures r.Key? == e.Key?
  {
    if !e.Key? then e
    else
      var i := Index(held, e);
      if i < |held| then e.(key := held[i].make.key) else e
  }

  // A sink accepts or refuses an event, depending on what it has already accepted.
  type Accepts = (seq<Event>, Event) -> bool

  // The ledger and the sink's log, and whether everything went well.
  datatype Outcome = Outcome(held: seq<HeldKey>, log: seq<Event>, ok: bool)

  // Replays the pending makes from position i on, in ledger order, until the sink refuses one.
  function Flush(held: seq<HeldKey>, i: nat, log: seq<Event>, accepts: Accepts): (r: Outcome)
    requires i <= |held|
    ensures |r.held| == |held| && forall j :: 0 <= j < |held| ==> r.held[j].make == held[j].make
    decreases |held| - i
  {
    if i == |held| then Outcome(held, log, true)
    else if held[i].state != Pending then Flush(held, i + 1, log, accepts)
    else
      var now := held[i := held[i].(state := Delivered)];
      if !held[i].allowReplay then Flush(now, i + 1, log, accepts)
      else if !accepts(log, held[i].make) then Outcome(held, log, false)
      else Flush(now, i + 1, log + [held[i].make], accepts)
  }

  // Hands one event to the sink, provided everything went well so far.
  function Emit(o: Outcome, e: Event, accepts: Accepts): Outcome {
    if !o.ok then o
    else if accepts(o.log, e) then Outcome(o.held, o.log + [e], true)
    else Outcome(o.held, o.log, false)
  }

  function Without(held: seq<HeldKey>, i: nat): seq<HeldKey>
    requires i < |held|
  {
    held[..i] + held[i + 1..]
  }

  // One of the chord's modifiers has already been given to the guest.
  ghost predicate Blocked(held: seq<HeldKey>, modifiers: bv8)
    requires Makes(held)
  {
    exists i :: 0 <= i < |held| && held[i].state == Delivered
      && ModifierBit(held[i].make.key) & modifiers != NO_MODIFIER
  }

  // The first registration of a chord.
  function Match(registry: seq<Registration>, key: nat, modifiers: bv8): (r: nat)
    ensures r <= |registry|
    ensures r < |registry| ==> registry[r].key == key && registry[r].modifiers == modifiers
    ensures forall i :: 0 <= i < r ==> !(registry[i].key == key && registry[i].modifiers == modifiers)
  {
    if registry == [] then 0
    else if registry[0].key == key && registry[0].modifiers == modifiers then 0
    else 1 + Match(registry[1..], key, modifiers)
  }

  // Some registered chord uses this modifier.
  ghost predicate HasModifier(registry: seq<Registration>, modifier: bv8) {
    modifier != NO_MODIFIER && exists i :: 0 <= i < |registry| && registry[i].modifiers & modifier != NO_MODIFIER
  }

  // A modifier key whose make is withheld because a chord may follow.
  ghost predicate Withheld(registry: seq<Registration>, key: nat) {
    HasModifier(registry, ModifierBit(key))
  }

  // A chord takes every pending key with it.
  function Consume(held: seq<HeldKey>): (r: seq<HeldKey>)
    ensures |r| == |held|
    ensures forall i :: 0 <= i < |held| ==>
      r[i] == (if held[i].state == Pending then held[i].(state := Consumed) else held[i])
  {
    seq(|held|, i requires 0 <= i < |held| => if held[i].state == Pending then held[i].(state := Consumed) else held[i])
  }

  // A release.
  function Release(held: seq<HeldKey>, e: Event, log: seq<Event>, accepts: Accepts): (r: Outcome)
    requires Makes(held) && e.Key?
    ensures Makes(r.held)
  {
    var i := Index(held, e);
    if i == |held| then Outcome(held, log, true)
    else if held[i].state == Consumed then Outcome(Without(held, i), log, true)
    else
      var o := Emit(Flush(held, 0, log, accepts), Normalise(held, e), accepts);
      if o.ok then Outcome(Without(o.held, i), o.log, true) else o
  }

  // A press of the key at position i of a ledger that already contains it.
  ghost function Held(registry: seq<Registration>, held: seq<HeldKey>, i: nat, e: Event, log: seq<Event>,
      accepts: Accepts): (r: Outcome)
    requires Makes(held) && i < |held| && e.Key?
    ensures Makes(r.held)
  {
    if held[i].state == Delivered then Emit(Flush(held, 0, log, accepts), e, accepts)
    else
      var m := Match(registry, e.key, e.modifiers);
      if !Blocked(held, e.modifiers) && m < |registry|
      then Emit(Outcome(Consume(held), log, true), Hotkey(e.source, registry[m].identifier), accepts)
      else if held[i].state == Consumed || Withheld(registry, e.key) then Outcome(held, log, true)
      else Flush(held, 0, log, accepts)
  }

  // A press; `room` says whether the ledger can grow if it has to.
  ghost function Press(registry: seq<Registration>, held: seq<HeldKey>, e: Event, log: seq<Event>, accepts: Accepts,
      allowReplay: bool, room: bool): (r: Outcome)
    requires Makes(held) && e.Key?
    ensures Makes(r.held)
  {
    var i := Index(held, e);
    if i < |held| then Held(registry, held, i, Normalise(held, e), log, accepts)
    else if !room then Outcome(held, log, false)
    else Held(registry, held + [HeldKey(e, Pending, allowReplay)], i, e, log, accepts)
  }

  ghost function Submit(registry: seq<Registration>, held: seq<HeldKey>, e: Event, log: seq<Event>, accepts: Accepts,
      allowReplay: bool, room: bool): (r: Outcome)
    requires Makes(held)
    ensures Makes(r.held)
  {
    if e.Key? then
      (if e.pressed then Press(registry, held, e, log, accepts, allowReplay, room) else Release(held, e, log, accepts))
    else Emit(if e.Text? then Flush(held, 0, log, accepts) else Outcome(held, log, true), e, accepts)
  }
}
