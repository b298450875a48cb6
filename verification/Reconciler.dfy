/**
 The presentation reconciler of a session: facts about the machine decide which consoles and
 windows there should be, and one action at a time brings the user interface there.
 */
module Reconciler {

  datatype Machine = Init | Stopped | Running | Paused | Error | ResetCompleted

  datatype Display = WindowDisplay | ConsoleDisplay

  datatype Action = None | CreateWindow | CreateVmConsole | BindVmConsole | BindMonitor | DestroyVmConsole
    | DestroyWindow

  datatype CurrentConsole = MonitorConsole | VmConsole

  datatype Plan = Plan(window: bool, vmConsole: bool, monitor: bool)

  // emulator_session_derive_presentation.
  function Derive(display: Display, consoleControl: bool, machine: Machine, frame: bool, graphics: bool): Plan {
    if machine == Stopped || machine == Error then Plan(false, false, true)
    else if machine == Paused then Plan(display == WindowDisplay || graphics, false, true)
    else if display == WindowDisplay then Plan(true, false, true)
    else if !frame then Plan(false, false, true)
    else if !graphics then Plan(false, true, false)
    else if !consoleControl then Plan(true, true, false)
    else Plan(true, false, true)
  }

  // The VM console is wanted exactly for a console display of a machine that is neither stopped,
  // failed nor paused and shows a frame, if it shows text or the console is not in control; the
  // monitor exactly when the VM console is not; a window for any window display of a machine that is
  // neither stopped nor failed, and for the graphics of a console display.
  lemma PlanIs(display: Display, consoleControl: bool, machine: Machine, frame: bool, graphics: bool)
    ensures var plan := Derive(display, consoleControl, machine, frame, graphics);
      && (plan.vmConsole <==>
            && display == ConsoleDisplay && machine != Stopped && machine != Error && machine != Paused
            && frame && (!graphics || !consoleControl))
      && (plan.monitor <==> !plan.vmConsole)
      && (plan.window <==>
            && machine != Stopped && machine != Error
            && (display == WindowDisplay || (graphics && (frame || machine == Paused))))
  {
  }

  // Which components there are, and which console is Current.
  datatype World = World(window: bool, vmConsole: bool, current: CurrentConsole)

  // The facts of the control thread: what the machine is doing, what is known of the components,
  // and the action in flight.
  datatype State = State(
    display: Display, consoleControl: bool, runtime: Machine, frame: bool, graphics: bool,
    known: World, inFlight: Action, windowSuppressed: bool, monitor: Machine, sequence: nat)

  function Start(display: Display, consoleControl: bool): State {
    State(display, consoleControl, Stopped, false, false, World(false, false, MonitorConsole), None, false, Init, 0)
  }

  // ---------- facts ----------

  function NoteWindowClose(s: State): State { s.(windowSuppressed := true) }

  function NoteRuntime(s: State, completed: Machine): State {
    var shown := if completed == ResetCompleted then Paused else completed;
    var monitor := if completed == Init then s.monitor else shown;
    var suppressed := s.windowSuppressed || (completed == Paused && s.runtime == Stopped && !s.known.window);
    var s1 := s.(monitor := monitor, runtime := shown,
                 windowSuppressed := if shown == Running && s.runtime != Running then false else suppressed);
    if shown == Stopped || shown == Error then s1.(frame := false, graphics := false) else s1
  }

  const WRAP_32 := 0x1_0000_0000

  // emulator_session_frame_is_newer: publication serials wrap and skip zero.
  predicate IsNewer(sequence: nat, previous: nat) {
    var distance := (sequence - previous) % WRAP_32;
    sequence != 0 && (previous == 0 || (distance != 0 && distance < 0x8000_0000))
  }

  function NoteFrame(s: State, sequence: nat, graphics: bool): State {
    if !IsNewer(sequence, s.sequence) then s else s.(sequence := sequence, frame := true, graphics := graphics)
  }

  function NoteWindow(s: State, present: bool): State {
    var done := s.inFlight == if present then CreateWindow else DestroyWindow;
    s.(known := s.known.(window := present), inFlight := if done then None else s.inFlight)
  }

  function NoteVmConsole(s: State, present: bool): State {
    var done := s.inFlight == if present then CreateVmConsole else DestroyVmConsole;
    s.(known := s.known.(vmConsole := present), inFlight := if done then None else s.inFlight)
  }

  function NoteCurrent(s: State, vm: bool): State {
    var done := s.inFlight == if vm then BindVmConsole else BindMonitor;
    s.(known := s.known.(current := if vm then VmConsole else MonitorConsole),
       inFlight := if done then None else s.inFlight)
  }

  // ---------- the next action ----------

  function Desired(s: State): Plan {
    var plan := Derive(s.display, s.consoleControl, s.runtime, s.frame, s.graphics);
    if s.windowSuppressed && s.runtime == Paused then plan.(window := false) else plan
  }

  // The order of the work: consoles first, then the window.
  function Choose(d: Plan, running: bool, w: World): Action {
    if d.vmConsole && !w.vmConsole then CreateVmConsole
    else if d.vmConsole && w.current != VmConsole then BindVmConsole
    else if !d.vmConsole && w.current != MonitorConsole then BindMonitor
    else if !d.vmConsole && w.vmConsole then DestroyVmConsole
    else if d.window && !w.window && running then CreateWindow
    else if !d.window && w.window then DestroyWindow
    else None
  }

  function NextAction(s: State): Action {
    if s.inFlight != None then None else Choose(Desired(s), s.runtime == Running, s.known)
  }

  function TakeAction(s: State): State {
    var action := NextAction(s);
    if action == None then s else s.(inFlight := action)
  }

  // ---------- the user interface ----------

  // A completed action as reported back, with the run it was done in.
  datatype Completion =
    | WindowDone(present: bool, run: nat)
    | VmConsoleDone(present: bool, run: nat)
    | CurrentDone(vm: bool, run: nat)

  // What an action needs: emulator_ui_apply_action refuses it, or the console broker refuses the
  // replacement, or the action would be empty or destroy a console that is in use.
  predicate UiReady(w: World, action: Action) {
    match action
    case None => true
    case CreateWindow => !w.window
    case CreateVmConsole => !w.vmConsole
    case BindVmConsole => w.vmConsole && w.current == MonitorConsole
    case BindMonitor => w.vmConsole && w.current == VmConsole
    case DestroyVmConsole => w.vmConsole && w.current == MonitorConsole
    case DestroyWindow => w.window
  }

  function Apply(w: World, action: Action): World {
    match action
    case None => w
    case CreateWindow => w.(window := true)
    case CreateVmConsole => w.(vmConsole := true)
    case BindVmConsole => w.(current := VmConsole)
    case BindMonitor => w.(current := MonitorConsole)
    case DestroyVmConsole => w.(vmConsole := false)
    case DestroyWindow => w.(window := false)
  }

  function Report(action: Action, run: nat): Completion
    requires action != None
  {
    match action
    case CreateWindow => WindowDone(true, run)
    case DestroyWindow => WindowDone(false, run)
    case CreateVmConsole => VmConsoleDone(true, run)
    case DestroyVmConsole => VmConsoleDone(false, run)
    case BindVmConsole => CurrentDone(true, run)
    case BindMonitor => CurrentDone(false, run)
  }

  function Note(s: State, c: Completion): State {
    match c
    case WindowDone(present, _) => NoteWindow(s, present)
    case VmConsoleDone(present, _) => NoteVmConsole(s, present)
    case CurrentDone(vm, _) => NoteCurrent(s, vm)
  }

  // ---------- a session ----------

  // The queue holds the completions not yet processed. The session ends when the user interface
  // fails to carry out an action. `issued` is every action so far with the world it met.
  datatype Session = Session(s: State, world: World, queue: seq<Completion>, run: nat, ended: bool,
      issued: seq<(Action, World)>)

  datatype Event =
    | RuntimeNotice(machine: Machine)
    | FrameNotice(sequence: nat, graphics: bool)
    | CloseNotice
    | NewRun
    | Drive(succeeds: bool)
    | Process

  function Open(display: Display, consoleControl: bool): Session {
    Session(Start(display, consoleControl), World(false, false, MonitorConsole), [], 0, false, [])
  }

  // emulator_session_drive: take an action and carry it out.
  function DriveSession(x: Session, succeeds: bool): Session {
    var action := NextAction(x.s);
    if action == None then x
    else
      var y := x.(s := TakeAction(x.s), issued := x.issued + [(action, x.world)]);
      if succeeds && UiReady(x.world, action)
      then y.(world := Apply(x.world, action), queue := x.queue + [Report(action, x.run)])
      else y.(ended := true)
  }

  // emulator_session_process_completed: a completion of another run is dropped.
  function ProcessOne(x: Session): Session {
    if x.queue == [] then x
    else
      var c := x.queue[0];
      var y := x.(queue := x.queue[1..]);
      if c.run != 0 && c.run != x.run then y else y.(s := Note(x.s, c))
  }

  function StepSession(x: Session, e: Event): Session {
    if x.ended then x
    else
      match e
      case RuntimeNotice(machine) => x.(s := NoteRuntime(x.s, machine))
      case FrameNotice(sequence, graphics) => x.(s := NoteFrame(x.s, sequence, graphics))
      case CloseNotice => x.(s := NoteWindowClose(x.s))
      case NewRun => x.(run := x.run + 1)
      case Drive(succeeds) => DriveSession(x, succeeds)
      case Process => ProcessOne(x)
  }

  function After(x: Session, events: seq<Event>): Session {
    if events == [] then x else StepSession(After(x, events[..|events| - 1]), events[|events| - 1])
  }

  // ---------- safety over every run ----------

  // With nothing in flight the facts are the truth and nothing is queued; otherwise the one
  // completion that may be queued is that of the action in flight, which is all the facts lag
  // behind by.
  ghost predicate InStep(x: Session) {
    && (x.world.current == VmConsole ==> x.world.vmConsole)
    && (!x.ended ==>
          if x.s.inFlight == None then x.queue == [] && x.s.known == x.world
          else UiReady(x.s.known, x.s.inFlight) && x.world == Apply(x.s.known, x.s.inFlight) &&
               (x.queue == [] || (|x.queue| == 1 && x.queue[0] == Report(x.s.inFlight, x.queue[0].run))))
    && (forall i :: 0 <= i < |x.queue| ==> x.queue[i].run <= x.run)
    && (forall i :: 0 <= i < |x.issued| ==> x.issued[i].0 != None && UiReady(x.issued[i].1, x.issued[i].0))
  }

  lemma ChosenIsReady(d: Plan, running: bool, w: World)
    requires w.current == VmConsole ==> w.vmConsole
    ensures UiReady(w, Choose(d, running, w))
  {
  }

  lemma DriveInStep(x: Session, succeeds: bool)
    requires InStep(x) && !x.ended
    ensures InStep(DriveSession(x, succeeds))
  {
    if x.s.inFlight == None { ChosenIsReady(Desired(x.s), x.s.runtime == Running, x.world); }
  }

  lemma ProcessInStep(x: Session)
    requires InStep(x) && !x.ended
    ensures InStep(ProcessOne(x))
  {
  }

  lemma {:induction false} RunInStep(display: Display, consoleControl: bool, events: seq<Event>)
    ensures InStep(After(Open(display, consoleControl), events))
  {
    if events != [] {
      var n := |events| - 1;
      RunInStep(display, consoleControl, events[..n]);
      var x := After(Open(display, consoleControl), events[..n]);
      if !x.ended {
        match events[n]
        case Drive(succeeds) => DriveInStep(x, succeeds);
        case Process => ProcessInStep(x);
        case _ =>
      }
    }
  }

  // In every run, every action issued met what the user interface needs for it: in particular
  // the VM console was never destroyed while it was the Current Console, and a session ends only
  // through a failing host.
  lemma EveryActionIsReady(display: Display, consoleControl: bool, events: seq<Event>, i: nat)
    requires i < |After(Open(display, consoleControl), events).issued|
    ensures var (action, world) := After(Open(display, consoleControl), events).issued[i];
      action != None && UiReady(world, action) && (action == DestroyVmConsole ==> world.current == MonitorConsole)
  {
    RunInStep(display, consoleControl, events);
  }

  // One action at a time: none is issued while one is in flight, and only its own completion
  // ends its flight.
  lemma OneInFlight(x: Session, e: Event)
    requires InStep(x)
    ensures StepSession(x, e).issued != x.issued ==> x.s.inFlight == None
    ensures x.s.inFlight != None && StepSession(x, e).s.inFlight == None ==>
      e == Process && |x.queue| == 1 && x.queue[0] == Report(x.s.inFlight, x.queue[0].run)
  {
  }

  // A completion that was dropped is never replaced: once the action in flight has no
  // completion queued, no further action is issued, whatever happens.
  lemma {:induction false} DroppedBlocks(x: Session, events: seq<Event>)
    requires x.s.inFlight != None && x.queue == []
    ensures var y := After(x, events); y.issued == x.issued && y.s.inFlight == x.s.inFlight && y.queue == []
  {
    if events != [] { DroppedBlocks(x, events[..|events| - 1]); }
  }

  // It is dropped exactly when it is processed in another run than the one it was done in.
  lemma DroppedExactly(x: Session)
    requires InStep(x) && !x.ended && x.queue != []
    ensures ProcessOne(x).s.inFlight == None <==> x.queue[0].run == 0 || x.queue[0].run == x.run
  {
  }

  // This happens: the window of the first run has been created, and the run ends before the
  // completion is processed.
  function Creating(): Session {
    Session(NoteRuntime(Start(WindowDisplay, true), Running).(inFlight := CreateWindow),
      World(true, false, MonitorConsole), [WindowDone(true, 1)], 1, false,
            [(CreateWindow, World(false, false, MonitorConsole))])
  }

  lemma AfterOne(x: Session, events: seq<Event>, e: Event)
    ensures After(x, events + [e]) == StepSession(After(x, events), e)
  {
    assert (events + [e])[..|events|] == events;
  }

  lemma CreatingIsReached()
    ensures After(Open(WindowDisplay, true), [NewRun] + [RuntimeNotice(Running)] + [Drive(true)]) == Creating()
  {
    var x := Open(WindowDisplay, true);
    assert [] + [NewRun] == [NewRun];
    AfterOne(x, [], NewRun);
    AfterOne(x, [NewRun], RuntimeNotice(Running));
    AfterOne(x, [NewRun] + [RuntimeNotice(Running)], Drive(true));
  }

  lemma CompletionComesLate()
    ensures var x := After(Creating(), [NewRun] + [Process]); !x.ended && x.s.inFlight == CreateWindow && x.queue == []
  {
    assert [] + [NewRun] == [NewRun];
    AfterOne(Creating(), [], NewRun);
    AfterOne(Creating(), [NewRun], Process);
  }

  // The session goes on, but never issues another action.
  lemma DroppedForever(events: seq<Event>)
    ensures var x := After(After(Open(WindowDisplay, true), [NewRun] + [RuntimeNotice(Running)] + [Drive(true)]),
      [NewRun] + [Process]);
      !x.ended && x.s.inFlight == CreateWindow && After(x, events).issued == x.issued
  {
    CreatingIsReached();
    CompletionComesLate();
    DroppedBlocks(After(Creating(), [NewRun] + [Process]), events);
  }

  // ---------- facts ----------

  // The last notice about the machine; a completed reset is a pause.
  function LastNotice(events: seq<Event>): Machine {
    if events == [] then Stopped
    else
      var e := events[|events| - 1];
      if e.RuntimeNotice? then (if e.machine == ResetCompleted then Paused else e.machine)
      else LastNotice(events[..|events| - 1])
  }

  ghost predicate SameFacts(s: State, t: State) {
    t.display == s.display && t.consoleControl == s.consoleControl && t.runtime == s.runtime
  }

  lemma DriveFacts(x: Session, succeeds: bool)
    ensures SameFacts(x.s, DriveSession(x, succeeds).s)
  {
  }

  lemma ProcessFacts(x: Session)
    ensures SameFacts(x.s, ProcessOne(x).s)
  {
  }

  // What one event does to the facts about the machine and the display.
  lemma StepFacts(x: Session, e: Event)
    requires !x.ended
    ensures SameFacts(
      if !e.RuntimeNotice? then x.s else x.s.(runtime := if e.machine == ResetCompleted then Paused else e.machine),
      StepSession(x, e).s)
  {
    match e
    case Drive(succeeds) => DriveFacts(x, succeeds);
    case Process => ProcessFacts(x);
    case _ =>
  }

  lemma StaysClosed(x: Session, e: Event)
    requires x.s.windowSuppressed && e != RuntimeNotice(Running)
    ensures StepSession(x, e).s.windowSuppressed
  {
  }

  // In every session the machine is taken to be in the state last noticed.
  lemma {:induction false} FactsFollowNotices(display: Display, consoleControl: bool, events: seq<Event>)
    requires !After(Open(display, consoleControl), events).ended
    ensures var s := After(Open(display, consoleControl), events).s;
      s.runtime == LastNotice(events) && s.display == display && s.consoleControl == consoleControl
  {
    if events != [] {
      var n := |events| - 1;
      FactsFollowNotices(display, consoleControl, events[..n]);
      StepFacts(After(Open(display, consoleControl), events[..n]), events[n]);
    }
  }

  // A window that was closed is not wanted in a pause before the machine runs again.
  lemma {:induction false} ClosedUntilRunning(x: Session, events: seq<Event>)
    requires x.s.windowSuppressed && forall i :: 0 <= i < |events| ==> events[i] != RuntimeNotice(Running)
    ensures var s := After(x, events).s; s.windowSuppressed && (s.runtime == Paused ==> !Desired(s).window)
  {
    if events != [] {
      var n := |events| - 1;
      ClosedUntilRunning(x, events[..n]);
      StaysClosed(After(x, events[..n]), events[n]);
    }
  }

  // ---------- convergence ----------

  // The consoles are as planned.
  predicate ConsolesSettled(d: Plan, w: World) {
    w.vmConsole == d.vmConsole && w.current == if d.vmConsole then VmConsole else MonitorConsole
  }

  // So is the window; only a running machine makes a new one.
  predicate WindowSettled(d: Plan, running: bool, w: World) {
    (w.window ==> d.window) && (d.window ==> w.window || !running)
  }

  // How many actions are missing.
  function Missing(d: Plan, running: bool, w: World): (n: nat)
    ensures n <= 3 && (n == 0 <==> ConsolesSettled(d, w) && WindowSettled(d, running, w))
  {
    (if w.vmConsole == d.vmConsole then 0 else 1)
    + (if w.current == (if d.vmConsole then VmConsole else MonitorConsole) then 0 else 1)
    + (if WindowSettled(d, running, w) then 0 else 1)
  }

  // Console work comes before window work, each action does one piece of the work, and none is
  // chosen exactly when everything is as planned.
  lemma OnePiece(d: Plan, running: bool, w: World)
    requires w.current == VmConsole ==> w.vmConsole
    ensures Choose(d, running, w) == CreateWindow || Choose(d, running, w) == DestroyWindow ==> ConsolesSettled(d, w)
    ensures Choose(d, running, w) == None <==> Missing(d, running, w) == 0
    ensures Choose(d, running, w) != None ==>
      Missing(d, running, Apply(w, Choose(d, running, w))) == Missing(d, running, w) - 1
  {
  }

  // What is queued is processed, and then n actions, each followed by its completion.
  function Rounds(n: nat): seq<Event> {
    if n == 0 then [Process] else Rounds(n - 1) + [Drive(true)] + [Process]
  }

  function MissingFor(x: Session): nat { Missing(Desired(x.s), x.s.runtime == Running, x.world) }

  // The action in flight has lost its completion, or will lose it to a later run.
  predicate Stuck(x: Session) {
    x.s.inFlight != None && (x.queue == [] || (x.queue[0].run != 0 && x.queue[0].run < x.run))
  }

  lemma StuckStays(x: Session, e: Event)
    requires Stuck(x) && |x.queue| <= 1
    ensures var y := StepSession(x, e);
      Stuck(y) && |y.queue| <= 1 && y.issued == x.issued && y.s.inFlight == x.s.inFlight
  {
  }

  // Then no action is ever issued again.
  lemma {:induction false} StuckForever(x: Session, events: seq<Event>)
    requires InStep(x) && !x.ended && Stuck(x)
    ensures var y := After(x, events);
      Stuck(y) && |y.queue| <= 1 && y.issued == x.issued && y.s.inFlight == x.s.inFlight
  {
    if events != [] {
      StuckForever(x, events[..|events| - 1]);
      StuckStays(After(x, events[..|events| - 1]), events[|events| - 1]);
    }
  }

  // The completion of an action tells what it did, and nothing else.
  lemma CompletionNotes(s: State, run: nat)
    requires s.inFlight != None
    ensures Note(s, Report(s.inFlight, run)) == s.(known := Apply(s.known, s.inFlight), inFlight := None)
  {
  }

  // A session in which the facts about the machine are those of another, some actions later.
  ghost predicate Later(y: Session, x: Session, n: nat) {
    && InStep(y) && !y.ended && y.s == x.s.(known := y.world, inFlight := None)
    && MissingFor(y) == MissingFor(x) - n && |y.issued| == |x.issued| + n
  }

  // What is queued brings the facts up to the world.
  lemma ProcessCatchesUp(x: Session)
    requires InStep(x) && !x.ended && !Stuck(x)
    ensures Later(ProcessOne(x), x, 0) && ProcessOne(x).world == x.world
  {
    ProcessInStep(x);
    if x.s.inFlight != None { CompletionNotes(x.s, x.queue[0].run); }
  }

  lemma DriveIsDone(x: Session)
    requires InStep(x) && !x.ended && x.s.inFlight == None && MissingFor(x) > 0
    ensures var y := DriveSession(x, true);
      && !y.ended && !Stuck(y) && y.s == x.s.(inFlight := y.s.inFlight) && MissingFor(y) == MissingFor(x) - 1
         && |y.issued| == |x.issued| + 1
  {
    OnePiece(Desired(x.s), x.s.runtime == Running, x.world);
    ChosenIsReady(Desired(x.s), x.s.runtime == Running, x.world);
  }

  // A round does one of the missing actions.
  lemma OneRound(x: Session)
    requires InStep(x) && !x.ended && x.s.inFlight == None && MissingFor(x) > 0
    ensures Later(ProcessOne(DriveSession(x, true)), x, 1)
  {
    DriveIsDone(x);
    DriveInStep(x, true);
    ProcessCatchesUp(DriveSession(x, true));
  }

  lemma NextRound(x: Session, events: seq<Event>)
    requires var y := After(x, events); InStep(y) && !y.ended && y.s.inFlight == None && MissingFor(y) > 0
    ensures After(x, events + [Drive(true)] + [Process]) == ProcessOne(DriveSession(After(x, events), true))
  {
    DriveIsDone(After(x, events));
    AfterOne(x, events, Drive(true));
    AfterOne(x, events + [Drive(true)], Process);
  }

  lemma FirstProcess(x: Session)
    requires !x.ended
    ensures After(x, Rounds(0)) == ProcessOne(x)
  {
    AfterOne(x, [], Process);
    assert [] + [Process] == Rounds(0);
  }

  lemma LaterStill(z: Session, y: Session, x: Session, n: nat)
    requires Later(y, x, n) && Later(z, y, 1)
    ensures Later(z, x, n + 1)
  {
  }

  lemma SettleMore(x: Session, events: seq<Event>, n: nat)
    requires Later(After(x, events), x, n) && n < MissingFor(x)
    ensures Later(After(x, events + [Drive(true)] + [Process]), x, n + 1)
  {
    var y := After(x, events);
    NextRound(x, events);
    OneRound(y);
    LaterStill(ProcessOne(DriveSession(y, true)), y, x, n);
  }

  lemma {:induction false} RoundsSettle(x: Session, n: nat)
    requires InStep(x) && !x.ended && !Stuck(x) && n <= MissingFor(x)
    ensures Later(After(x, Rounds(n)), x, n)
  {
    if n == 0 {
      FirstProcess(x);
      ProcessCatchesUp(x);
    } else {
      RoundsSettle(x, n - 1);
      SettleMore(x, Rounds(n - 1), n - 1);
    }
  }

  // The user interface is as the facts about the machine want it.
  ghost predicate Settled(x: Session, y: Session) {
    ConsolesSettled(Desired(x.s), y.world) && WindowSettled(Desired(x.s), x.s.runtime == Running, y.world)
  }

  // From every session that can be reached and has not ended: unless it is stuck, processing what
  // is queued and then driving and processing exactly the missing actions, at most three, brings
  // the user interface to the plan, the facts about the machine being the same and the facts about
  // the components the truth. A stuck one never issues an action again.
  lemma Converges(display: Display, consoleControl: bool, events: seq<Event>)
    requires !After(Open(display, consoleControl), events).ended
    ensures var x := After(Open(display, consoleControl), events);
      if Stuck(x) then forall more :: After(x, more).issued == x.issued
      else var n := MissingFor(x); var y := After(x, Rounds(n)); n <= 3 && Later(y, x, n) && Settled(x, y)
  {
    RunInStep(display, consoleControl, events);
    var x := After(Open(display, consoleControl), events);
    if Stuck(x) {
      forall more ensures After(x, more).issued == x.issued { StuckForever(x, more); }
    } else {
      RoundsSettle(x, MissingFor(x));
    }
  }
}
