/**
 Logical Consoles and the broker that lends the one native Console to one of them at a time.
 Replacing the Current Console is a transaction over a backend that may fail at every step.
 */
module ConsoleBroker {

  datatype Status = Ok | InvalidArgument | InvalidState | NoMemory | LimitExceeded | Failed

  datatype Mode = RawEvents | CookedLines

  datatype Kind = InputReset | Activated

  datatype Event = Event(kind: Kind, generation: nat)

  datatype Input = NoSink | Sink(events: seq<Event>)

  // Where the output of a Console goes: nowhere, or to the native Console as this Console of
  // this generation.
  datatype Output = NoOutput | Output(console: Console, generation: nat)

  datatype Request = NoRequest | Unfinished

  const GENERATION_LIMIT := 0x1_0000_0000

  class Console {
    var references: nat
    var binding: nat
    var input: Input
    var output: Output
    ghost var Others: nat  // the references not held by the broker

    constructor ()
      ensures references == 1 == Others && binding == 0 && input == NoSink && output == NoOutput
    {
      references, Others, binding, input, output := 1, 1, 0, NoSink, NoOutput;
    }

    method Retain()
      modifies this`references
      ensures references == old(references) + 1
    {
      references := references + 1;
    }

    // The last release destroys the Console.
    method Release() returns (destroyed: bool)
      requires references > 0
      modifies this`references
      ensures references == old(references) - 1 && destroyed == (references == 0)
    {
      references := references - 1;
      destroyed := references == 0;
    }

    // An event of another generation is dropped; without a sink there is nowhere to put it.
    method Deliver(e: Event) returns (status: Status)
      modifies this`input
      ensures status == if e.generation != 0 && e.generation == binding && input.NoSink? then InvalidState else Ok
      ensures input ==
        if e.generation != 0 && e.generation == binding && old(input).Sink? then Sink(old(input).events + [e])
        else old(input)
    {
      if e.generation == 0 || e.generation != binding { return Ok; }
      if input.NoSink? { return InvalidState; }
      input := Sink(input.events + [e]);
      status := Ok;
    }

    method Bind(generation: nat) returns (status: Status)
      modifies this`binding
      ensures status == if generation == 0 then InvalidArgument else Ok
      ensures binding == if generation == 0 then old(binding) else generation
    {
      if generation == 0 { return InvalidArgument; }
      binding := generation;
      status := Ok;
    }
  }

  datatype Reader = NoReader | Reading(console: Console, mode: Mode, generation: nat)

  // What the backend and the allocator answer during a replacement.
  datatype Answers = Answers(prepare: bool, memory: bool, deactivate: bool, activate: bool, reactivate: bool)

  // The native Console. Every operation may fail, as its argument says; a failed activation and
  // every deactivation leave no reader.
  class Backend {
    var reader: Reader
    var request: Request

    constructor ()
      ensures reader == NoReader && request == NoRequest
    {
      reader, request := NoReader, NoRequest;
    }

    method Activate(console: Console, mode: Mode, generation: nat, restore: Request, succeeds: bool)
        returns (status: Status)
      modifies this
      ensures status == if succeeds then Ok else Failed
      ensures reader == (if succeeds then Reading(console, mode, generation) else NoReader)
        && request == if succeeds then restore else NoRequest
    {
      if succeeds {
        status, reader, request := Ok, Reading(console, mode, generation), restore;
      } else {
        status, reader, request := Failed, NoReader, NoRequest;
      }
    }

    method Deactivate(succeeds: bool) returns (status: Status, unfinished: Request)
      modifies this
      ensures status == (if succeeds then Ok else Failed) && reader == NoReader && request == NoRequest
        && unfinished == old(request)
    {
      status, unfinished := if succeeds then Ok else Failed, request;
      reader, request := NoReader, NoRequest;
    }

    method RequestLine(succeeds: bool) returns (status: Status)
      modifies this`request
      ensures status == if succeeds then Ok else Failed
      ensures request == if succeeds then Unfinished else old(request)
    {
      if !succeeds { return Failed; }
      request := Unfinished;
      status := Ok;
    }

    // The user completes a line, if one was asked for.
    method CompleteLine()
      modifies this`request
      ensures request == NoRequest
    {
      request := NoRequest;
    }

    // A line may have been completed before it could be cancelled.
    method CancelLine(succeeds: bool) returns (status: Status, completed: bool)
      modifies this`request
      ensures status == (if succeeds then Ok else Failed) && request == NoRequest
        && completed == (old(request) == NoRequest)
    {
      completed := request == NoRequest;
      status := if succeeds then Ok else Failed;
      request := NoRequest;
    }
  }

  // ---------- what a call does, as a value ----------

  // What a client can notice of a broker.
  datatype Lease = Lease(current: Console, mode: Mode, generation: nat, broken: bool, request: Request)

  datatype Call =
    | ReplaceCall(expected: Console, next: Console, mode: Mode, answers: Answers)
    | RequestCall(expected: Console, succeeds: bool)
    | CancelCall(expected: Console, succeeds: bool)
    | LineCompleted  // no call: between two calls the user completes the line

  // A replacement that is not refused out of hand.
  predicate Eligible(l: Lease, expected: Console, next: Console) {
    expected != next && !l.broken && l.current == expected && l.generation + 1 < GENERATION_LIMIT
  }

  // It commits exactly if everything succeeds. It fails closed exactly if the old reader cannot be
  // retired, or neither the next nor the old one can be started; otherwise nothing changes.
  predicate Commits(a: Answers) { a.prepare && a.memory && a.deactivate && a.activate }

  predicate Shuts(a: Answers) { a.prepare && a.memory && (!a.deactivate || (!a.activate && !a.reactivate)) }

  function Replaced(l: Lease, expected: Console, next: Console, mode: Mode, a: Answers): (Lease, Status) {
    if expected == next then (l, InvalidArgument)
    else if l.broken || l.current != expected then (l, InvalidState)
    else if l.generation + 1 == GENERATION_LIMIT then (l, LimitExceeded)
    else if Commits(a) then (Lease(next, mode, l.generation + 1, false, NoRequest), Ok)
    else if Shuts(a) then (l.(broken := true, request := NoRequest), Failed)
    else (l, if a.prepare && !a.memory then NoMemory else Failed)
  }

  function CallOf(l: Lease, call: Call): (Lease, Status) {
    match call
    case ReplaceCall(expected, next, mode, a) => Replaced(l, expected, next, mode, a)
    case RequestCall(expected, succeeds) =>
      if l.broken || l.current != expected || l.mode != CookedLines then (l, InvalidState)
      else if succeeds then (l.(request := Unfinished), Ok)
      else (l, Failed)
    case CancelCall(expected, succeeds) =>
      if l.broken || l.current != expected || l.mode != CookedLines then (l, InvalidState)
      else if succeeds then (l.(request := NoRequest), Ok)
      else (l.(broken := true, request := NoRequest), Failed)
    case LineCompleted => (l.(request := NoRequest), Ok)
  }

  // What each answer leads to, field by field. A replacement succeeds exactly if the broker is live,
  // the expected Console is current and another one is asked for, a generation is left, and
  // everything is granted; then the next Console is current, in its mode, with no line asked for.
  lemma ReplaceSucceeds(l: Lease, expected: Console, next: Console, mode: Mode, a: Answers)
    ensures var (m, status) := CallOf(l, ReplaceCall(expected, next, mode, a));
      && (status == Ok <==>
            && expected != next && !l.broken && l.current == expected && l.generation + 1 != GENERATION_LIMIT
            && a.prepare && a.memory && a.deactivate && a.activate)
      && (status == Ok ==>
            && m.current == next && m.mode == mode && m.generation == l.generation + 1 && !m.broken
            && m.request == NoRequest)
  {
  }

  // A failure changes nothing but this: with the old reader not retired, or neither reader started,
  // the broker is broken and its line request lost.
  lemma ReplaceFails(l: Lease, expected: Console, next: Console, mode: Mode, a: Answers)
    ensures var (m, status) := CallOf(l, ReplaceCall(expected, next, mode, a));
      status != Ok ==>
        && m.current == l.current && m.mode == l.mode && m.generation == l.generation
        && (m.broken <==>
              || l.broken
              || (&& expected != next && l.current == expected && l.generation + 1 != GENERATION_LIMIT
                  && a.prepare && a.memory && (!a.deactivate || !a.reactivate)))
        && m.request == (if m.broken && !l.broken then NoRequest else l.request)
        && status == (if expected == next then InvalidArgument
                      else if l.broken || l.current != expected then InvalidState
                      else if l.generation + 1 == GENERATION_LIMIT then LimitExceeded
                      else if a.prepare && !a.memory then NoMemory
                      else Failed)
  {
  }

  // A line is armed or cancelled exactly for the current Console of a live broker in cooked mode; a
  // failed cancellation breaks the broker.
  lemma LineCalls(l: Lease, expected: Console, succeeds: bool)
    ensures var (m, status) := CallOf(l, RequestCall(expected, succeeds));
      && (status == InvalidState <==> l.broken || l.current != expected || l.mode == RawEvents)
      && (status == Ok <==> status != InvalidState && succeeds)
      && m.current == l.current && m.mode == l.mode && m.generation == l.generation && m.broken == l.broken
      && m.request == if status == Ok then Unfinished else l.request
    ensures var (m, status) := CallOf(l, CancelCall(expected, succeeds));
      && (status == InvalidState <==> l.broken || l.current != expected || l.mode == RawEvents)
      && (status == Ok <==> status != InvalidState && succeeds)
      && m.current == l.current && m.mode == l.mode && m.generation == l.generation
      && m.broken == (l.broken || status == Failed)
      && m.request == if status == InvalidState then l.request else NoRequest
  {
  }

  function LeaseAfter(l: Lease, calls: seq<Call>): Lease {
    if calls == [] then l else CallOf(LeaseAfter(l, calls[..|calls| - 1]), calls[|calls| - 1]).0
  }

  function StatusesOf(l: Lease, calls: seq<Call>): seq<Status> {
    if calls == [] then []
    else StatusesOf(l, calls[..|calls| - 1]) + [CallOf(LeaseAfter(l, calls[..|calls| - 1]), calls[|calls| - 1]).1]
  }

  // The generation counts the committed replacements.
  function Commitments(l: Lease, calls: seq<Call>): nat {
    if calls == [] then 0
    else
      var n := |calls| - 1;
      Commitments(l, calls[..n])
        + if calls[n].ReplaceCall? && CallOf(LeaseAfter(l, calls[..n]), calls[n]).1 == Ok then 1 else 0
  }

  lemma {:induction false} GenerationCounts(l: Lease, calls: seq<Call>)
    ensures LeaseAfter(l, calls).generation == l.generation + Commitments(l, calls)
  {
    if calls != [] { GenerationCounts(l, calls[..|calls| - 1]); }
  }

  // Once broken, a broker stays as it is, whatever is called; only a line that was still asked for
  // may be completed.
  lemma {:induction false} BrokenForever(l: Lease, calls: seq<Call>)
    requires l.broken
    ensures var m := LeaseAfter(l, calls); m == l || m == l.(request := NoRequest)
  {
    if calls != [] { BrokenForever(l, calls[..|calls| - 1]); }
  }

  // console_broker_reset_bound: a missing sink is no failure, so this never fails.
  method ResetBound(console: Console, generation: nat) returns (status: Status)
    modifies console`input
    ensures status == Ok && (old(console.input).NoSink? ==> console.input.NoSink?)
  {
    status := console.Deliver(Event(InputReset, generation));
    if status == InvalidState { status := Ok; }
  }

  class Broker {
    const backend: Backend
    var current: Console
    var mode: Mode
    var generation: nat
    var output: Output
    var broken: bool

    // At most one of the logical Consoles is bound: the current one, with the generation of the
    // broker; likewise for the output. The broker holds one reference, on the current Console.
    ghost predicate Valid(consoles: set<Console>)
      reads this, backend, consoles
    {
      && current in consoles && 0 < generation < GENERATION_LIMIT
      && (forall c :: c in consoles && c != current ==>
            c.binding == 0 && c.output == NoOutput && c.references == c.Others)
      && current.references == current.Others + 1 && current.output == output
      && (output == NoOutput || output == Output(current, generation))
      && (current.binding == 0 || current.binding == generation)
      && (!broken ==> Serving())
    }

    // The current Console is in use.
    ghost predicate Serving()
      reads this, backend, current
    {
      current.binding == generation && output == Output(current, generation)
        && backend.reader == Reading(current, mode, generation)
    }

    // console_broker_activate_bound.
    method ActivateBound(console: Console, mode: Mode, generation: nat, restore: Request, succeeds: bool)
        returns (status: Status)
      requires 0 < generation
      modifies backend, console`binding, console`input
      ensures status == (if succeeds then Ok else Failed) && console.binding == (if succeeds then generation else 0)
      ensures backend.reader == if succeeds then Reading(console, mode, generation) else NoReader
      ensures backend.request == if succeeds then restore else NoRequest
    {
      status := console.Bind(generation);
      if status != Ok { return; }
      status := ResetBound(console, generation);
      if status != Ok { return; }
      status := backend.Activate(console, mode, generation, restore, succeeds);
      if status != Ok { console.binding := 0; }
    }

    // console_broker_notify_activation.
    method NotifyActivation() returns (status: Status)
      modifies current`input
      ensures status == Ok
    {
      status := current.Deliver(Event(Activated, generation));
      if status == InvalidState { status := Ok; }
    }

    constructor (backend: Backend, initial: Console, mode: Mode)
      ensures this.backend == backend && current == initial && this.mode == mode && generation == 1
      ensures output == Output(initial, 1) && !broken
    {
      this.backend, current, this.mode, generation := backend, initial, mode, 1;
      output, broken := Output(initial, 1), false;
    }

    function Value(): Lease
      reads this, backend
    {
      Lease(current, mode, generation, broken, backend.request)
    }

    // console_broker_replace. It ends as the answers of the backend say: committed; refused or
    // rolled back with nothing changed, down to the reader and the unfinished line request; or
    // shut with nothing bound.
    method Replace(expected: Console, next: Console, nextMode: Mode, answers: Answers, ghost consoles: set<Console>)
        returns (status: Status)
      requires Valid(consoles) && next in consoles && next.references > 0
      modifies this, backend, current, next
      ensures Valid(consoles) && old(current).Others == old(current.Others) && next.Others == old(next.Others)
      ensures (Value(), status) == Replaced(old(Value()), expected, next, nextMode, answers)
      ensures Eligible(old(Value()), expected, next) && Shuts(answers) ==>
        backend.reader == NoReader && output == NoOutput && forall c :: c in consoles ==>
          c.binding == 0 && c.output == NoOutput
      ensures !Eligible(old(Value()), expected, next) || (!Commits(answers) && !Shuts(answers)) ==>
        backend.reader == old(backend.reader) && output == old(output) && current.binding == old(current.binding)
    {
      if expected == next { return InvalidArgument; }
      if broken || current != expected { return InvalidState; }
      var nextGeneration := generation + 1;
      if nextGeneration == GENERATION_LIMIT { return LimitExceeded; }
      next.Retain();
      if !answers.prepare || !answers.memory {
        var destroyed := next.Release();
        return if answers.prepare then NoMemory else Failed;
      }
      status := Takeover(next, nextMode, nextGeneration, answers, consoles);
    }

    // The broker serves the current Console and has taken a reference on another one, whose
    // output may already be set.
    ghost predicate Taking(next: Console, consoles: set<Console>)
      reads this, backend, consoles, next, current
    {
      && current in consoles && next in consoles && next != current && 0 < generation
         && generation + 1 < GENERATION_LIMIT
      && (forall c :: c in consoles && c != current && c != next ==>
            c.binding == 0 && c.output == NoOutput && c.references == c.Others)
      && next.binding == 0 && next.references == next.Others + 1
      && current.references == current.Others + 1 && current.output == output == Output(current, generation) && !broken
    }

    // The disruptive phase of a replacement.
    method Takeover(next: Console, nextMode: Mode, nextGeneration: nat, answers: Answers, ghost consoles: set<Console>)
        returns (status: Status)
      requires Taking(next, consoles) && Serving() && nextGeneration == generation + 1 && answers.prepare
        && answers.memory
      modifies this, backend, current, next
      ensures Valid(consoles) && old(current).Others == old(current.Others) && next.Others == old(next.Others)
      ensures (Value(), status) == Replaced(old(Value()), old(current), next, nextMode, answers)
      ensures Shuts(answers) ==> backend.reader == NoReader && output == NoOutput && forall c :: c in consoles ==>
        c.binding == 0 && c.output == NoOutput
      ensures !Commits(answers) && !Shuts(answers) ==>
        backend.reader == old(backend.reader) && output == old(output) && current.binding == old(current.binding)
    {
      next.output := Output(next, nextGeneration);
      var unfinished;
      status, unfinished := backend.Deactivate(answers.deactivate);
      if status == Ok { status := ResetBound(current, generation); }
      if status != Ok {
        Abandon(next);
        return;
      }
      current.binding := 0;
      status := ActivateBound(next, nextMode, nextGeneration, NoRequest, answers.activate);
      if status == Ok {
        status := Commit(next, nextMode, nextGeneration);
      } else {
        var restored := GoBack(next, unfinished, answers.reactivate);
        if restored != Ok { status := restored; }
      }
    }

    // The old Console is activated again, as it was; or the broker is broken.
    method GoBack(next: Console, unfinished: Request, succeeds: bool) returns (status: Status)
      requires next != current && next.references > 0 && 0 < generation
      modifies this`broken, this`output, backend, current`binding, current`input, current`output, next`output,
        next`references
      ensures next.output == NoOutput && next.references == old(next.references) - 1
      ensures status == if succeeds then Ok else Failed
      ensures status == Ok ==>
        && broken == old(broken) && output == old(output) && current.output == old(current.output)
           && current.binding == generation
        && backend.reader == Reading(current, mode, generation) && backend.request == unfinished
      ensures status != Ok ==>
        && broken && output == NoOutput && current.output == NoOutput && current.binding == 0
           && backend.reader == NoReader && backend.request == NoRequest
    {
      status := ActivateBound(current, mode, generation, unfinished, succeeds);
      if status != Ok {
        Abandon(next);
        return;
      }
      next.output := NoOutput;
      var destroyed := next.Release();
      status := NotifyActivation();
    }

    // The ends of a failed takeover: nothing stays bound, the Caller keeps next.
    method Abandon(next: Console)
      requires next != current && next.references > 0
      modifies this`broken, this`output, current`binding, current`output, next`output, next`references
      ensures broken && output == NoOutput && current.binding == 0 && current.output == NoOutput
      ensures next.output == NoOutput && next.references == old(next.references) - 1
    {
      broken := true;
      current.binding := 0;
      output := NoOutput;
      next.output := NoOutput;
      var destroyed := next.Release();
      current.output := NoOutput;
    }

    method Commit(next: Console, nextMode: Mode, nextGeneration: nat) returns (status: Status)
      requires next != current && current.references > 0
      modifies this, current`output, current`references, next`input
      ensures status == Ok && broken == old(broken) && current == next && mode == nextMode
        && generation == nextGeneration && output == next.output
      ensures old(current).output == NoOutput && old(current).references == old(current.references) - 1
    {
      var was := current;
      current, mode, generation := next, nextMode, nextGeneration;
      output := next.output;
      was.output := NoOutput;
      var destroyed := was.Release();
      status := NotifyActivation();
      broken := broken || status != Ok;
    }

    // console_broker_request_cooked_line.
    method RequestCookedLine(expected: Console, succeeds: bool, ghost consoles: set<Console>) returns (status: Status)
      requires Valid(consoles)
      modifies backend`request
      ensures Valid(consoles) && (Value(), status) == CallOf(old(Value()), RequestCall(expected, succeeds))
    {
      if broken || current != expected || mode != CookedLines { return InvalidState; }
      status := backend.RequestLine(succeeds);
    }

    // console_broker_cancel_cooked_line. A failure breaks the broker.
    method CancelCookedLine(expected: Console, succeeds: bool, ghost consoles: set<Console>)
        returns (status: Status, completed: bool)
      requires Valid(consoles)
      modifies this`broken, backend`request
      ensures Valid(consoles) && (Value(), status) == CallOf(old(Value()), CancelCall(expected, succeeds))
      ensures completed == (status != InvalidState && old(backend.request) == NoRequest)
    {
      completed := false;
      if broken || current != expected || mode != CookedLines { return InvalidState, false; }
      status, completed := backend.CancelLine(succeeds);
      broken := status != Ok;
    }

    // console_broker_destroy. Nothing stays bound, and the broker's reference is given back.
    method Destroy(process: Process, retires: bool, disposes: bool, ghost consoles: set<Console>)
        returns (status: Status)
      requires Valid(consoles) && process.claimed
      modifies this, backend, current, process
      ensures status == if retires && disposes then Ok else Failed
      ensures !process.claimed && backend.reader == NoReader
      ensures forall c :: c in consoles ==>
        c.binding == 0 && c.output == NoOutput && c.references == c.Others && c.Others == old(c.Others)
    {
      var unfinished, cleanup;
      status, unfinished := backend.Deactivate(retires);
      cleanup := ResetBound(current, generation);
      if status == Ok { status := cleanup; }
      output := NoOutput;
      current.binding := 0;
      current.output := NoOutput;
      var destroyed := current.Release();
      if status == Ok && !disposes { status := Failed; }
      process.claimed := false;
    }
  }

  // What is granted while a broker is created: its memory, the backend, the memory of its output
  // binding, and the activation.
  datatype Creation = Creation(memory: bool, backend: bool, binding: bool, activate: bool)

  // The one native Console of the process.
  class Process {
    var claimed: bool

    constructor ()
      ensures !claimed
    {
      claimed := false;
    }

    // console_broker_create. A failure leaves everything as it was.
    method CreateBroker(initial: Console, mode: Mode, grants: Creation, ghost consoles: set<Console>)
        returns (status: Status, broker: Broker?)
      requires initial in consoles && initial.references > 0
      requires !claimed ==> forall c :: c in consoles ==>
        c.binding == 0 && c.output == NoOutput && c.references == c.Others
      modifies this, initial
      ensures status == Ok <==> broker != null
      ensures status == Ok <==> !old(claimed) && grants.memory && grants.backend && grants.binding && grants.activate
      ensures old(claimed) ==> status == InvalidState && claimed
      ensures broker != null ==>
        fresh(broker) && fresh(broker.backend) && claimed && broker.Valid(consoles) && !broker.broken
          && broker.current == initial && broker.generation == 1
      ensures broker == null && !old(claimed) ==>
        !claimed && forall c :: c in consoles ==> c.binding == 0 && c.output == NoOutput && c.references == c.Others
    {
      broker := null;
      if claimed { return InvalidState, null; }
      claimed := true;
      if !grants.memory {
        claimed := false;
        return NoMemory, null;
      }
      var backend := new Backend();
      if !grants.backend {
        claimed := false;
        return Failed, null;
      }
      initial.Retain();
      if !grants.binding {
        var destroyed := initial.Release();
        claimed := false;
        return NoMemory, null;
      }
      var made := new Broker(backend, initial, mode);
      initial.output := made.output;
      status := made.ActivateBound(initial, mode, made.generation, NoRequest, grants.activate);
      if status != Ok {
        var cleanup, unfinished := backend.Deactivate(true);
        initial.output := NoOutput;
        var destroyed := initial.Release();
        claimed := false;
        return status, null;
      }
      broker := made;
      status := made.NotifyActivation();
    }
  }

  // ---------- any run of the broker ----------

  method Perform(broker: Broker, call: Call, ghost consoles: set<Console>) returns (status: Status)
    requires broker.Valid(consoles) && (forall c :: c in consoles ==> c.Others > 0)
      && (call.ReplaceCall? ==> call.next in consoles)
    modifies broker, broker.backend, consoles
    ensures broker.Valid(consoles) && (forall c :: c in consoles ==> c.Others > 0)
    ensures (broker.Value(), status) == CallOf(old(broker.Value()), call)
  {
    match call {
      case ReplaceCall(expected, next, mode, answers) =>
        status := broker.Replace(expected, next, mode, answers, consoles);
      case RequestCall(expected, succeeds) =>
        status := broker.RequestCookedLine(expected, succeeds, consoles);
      case CancelCall(expected, succeeds) =>
        var completed;
        status, completed := broker.CancelCookedLine(expected, succeeds, consoles);
      case LineCompleted =>
        broker.backend.CompleteLine();
        status := Ok;
    }
  }

  lemma CallsMore(l: Lease, calls: seq<Call>, n: nat)
    requires n < |calls|
    ensures LeaseAfter(l, calls[..n + 1]) == CallOf(LeaseAfter(l, calls[..n]), calls[n]).0
    ensures StatusesOf(l, calls[..n + 1]) == StatusesOf(l, calls[..n]) + [CallOf(LeaseAfter(l, calls[..n]), calls[n]).1]
  {
    assert calls[..n + 1][..n] == calls[..n];
  }

  // Whatever the callers ask and the backend answers, every call ends as its answers say, and the
  // broker stays valid: at most the current Console is bound, with the broker's generation, and
  // the broker holds one reference, on it.
  method RunCalls(broker: Broker, calls: seq<Call>, ghost consoles: set<Console>) returns (statuses: seq<Status>)
    requires broker.Valid(consoles) && (forall c :: c in consoles ==> c.Others > 0)
    requires forall i :: 0 <= i < |calls| && calls[i].ReplaceCall? ==> calls[i].next in consoles
    modifies broker, broker.backend, consoles
    ensures broker.Valid(consoles)
    ensures broker.Value() == LeaseAfter(old(broker.Value()), calls)
      && statuses == StatusesOf(old(broker.Value()), calls)
  {
    statuses := [];
    ghost var start := broker.Value();
    var n := 0;
    while n < |calls|
      invariant n <= |calls| && broker.Valid(consoles) && (forall c :: c in consoles ==> c.Others > 0)
      invariant broker.Value() == LeaseAfter(start, calls[..n]) && statuses == StatusesOf(start, calls[..n])
    {
      CallsMore(start, calls, n);
      var status := Perform(broker, calls[n], consoles);
      statuses := statuses + [status];
      n := n + 1;
    }
    assert calls[..n] == calls;
  }
}
