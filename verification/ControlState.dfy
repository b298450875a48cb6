/**
 The state of the control thread as the program keeps it: fields updated in place, against the
 functions of the reconciler.
 */
module ControlState {
  import opened Reconciler

  class SessionState {
    var display: Display
    var consoleControl: bool
    var runtime: Machine
    var frame: bool
    var graphics: bool
    var window: bool
    var vmConsole: bool
    var current: CurrentConsole
    var inFlight: Action
    var windowSuppressed: bool
    var monitor: Machine
    var sequence: nat

    function View(): State
      reads this
    {
      State(display, consoleControl, runtime, frame, graphics, World(window, vmConsole, current), inFlight,
        windowSuppressed, monitor, sequence)
    }

    constructor (display: Display, consoleControl: bool)
      ensures View() == Start(display, consoleControl)
    {
      this.display, this.consoleControl, runtime, frame, graphics := display, consoleControl, Stopped, false, false;
      window, vmConsole, current, inFlight := false, false, MonitorConsole, None;
      windowSuppressed, monitor, sequence := false, Init, 0;
    }

    method OnWindowClose()
      modifies this
      ensures View() == NoteWindowClose(old(View()))
    {
      windowSuppressed := true;
    }

    method OnRuntime(completed: Machine)
      modifies this
      ensures View() == NoteRuntime(old(View()), completed)
    {
      var shown := completed;
      var wasStopped := runtime == Stopped;
      if completed == ResetCompleted || completed == Paused {
        monitor := Paused;
      } else if completed == Running {
        monitor := Running;
      } else if completed == Stopped || completed == Error {
        monitor := completed;
      }
      if shown == ResetCompleted { shown := Paused; }
      if completed == Paused && wasStopped && !window { windowSuppressed := true; }
      if shown == Running && runtime != Running { windowSuppressed := false; }
      runtime := shown;
      if shown == Stopped || shown == Error { frame, graphics := false, false; }
    }

    method OnFrame(sequence: nat, graphics: bool) returns (newer: bool)
      modifies this
      ensures View() == NoteFrame(old(View()), sequence, graphics) && newer == IsNewer(sequence, old(this.sequence))
    {
      newer := IsNewer(sequence, this.sequence);
      if newer { this.sequence, frame, this.graphics := sequence, true, graphics; }
    }

    method OnWindow(present: bool)
      modifies this
      ensures View() == NoteWindow(old(View()), present)
    {
      window := present;
      if (present && inFlight == CreateWindow) || (!present && inFlight == DestroyWindow) { inFlight := None; }
    }

    method OnVmConsole(present: bool)
      modifies this
      ensures View() == NoteVmConsole(old(View()), present)
    {
      vmConsole := present;
      if (present && inFlight == CreateVmConsole) || (!present && inFlight == DestroyVmConsole) { inFlight := None; }
    }

    method OnCurrentConsole(vm: bool)
      modifies this
      ensures View() == NoteCurrent(old(View()), vm)
    {
      current := if vm then VmConsole else MonitorConsole;
      if (current == VmConsole && inFlight == BindVmConsole) || (current == MonitorConsole && inFlight == BindMonitor) {
        inFlight := None;
      }
    }

    method Take() returns (action: Action)
      modifies this
      ensures action == NextAction(old(View())) && View() == TakeAction(old(View()))
    {
      action := NextAction(View());
      if action != None { inFlight := action; }
    }

    // emulator_session_state_frame_targets_ready: a frame is shown only on components that are
    // wanted and there, and only if there is one.
    method FrameTargetsReady() returns (ready: bool)
      ensures ready ==>
        (Desired(View()).window ==> window) && (Desired(View()).vmConsole ==> vmConsole && current == VmConsole)
      ensures ready ==> window || vmConsole
      ensures View().inFlight == None && NextAction(View()) == None && runtime == Running ==>
        ready == (Desired(View()).window || Desired(View()).vmConsole)
    {
      var desired := Desired(View());
      if !desired.window && !desired.vmConsole { return false; }
      if desired.window && !window { return false; }
      ready := !desired.vmConsole || (vmConsole && current == VmConsole);
    }
  }
}
