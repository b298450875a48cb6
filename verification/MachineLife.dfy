/**
 What start, pause, resume, stop and reset achieve. The acts of a schedule are read off its turns
 and the program counters; the request flags, the lifecycle and the admission of input are held
 against them.
 */
module MachineLife {
  import opened MachineModel
  import opened MachineProof
  import opened MachineSave

  // ---------- what has been asked ----------

  datatype Mark =
    | Asked      // a pause has been asked for and not been withdrawn
    | Wanted     // one has been asked for since the guest last began to run
    | Released   // one has been withdrawn since the worker last saw it
    | Halt       // a stop has been asked for and not been taken back
    | Halted     // one has been asked for since the guest last began to run
    | Again      // a reset has been asked for and not been taken up
    | Resetting  // a reset is under way

  // A pause is asked for by a pause call, a reset, a load, a debug stop and a captured save.
  function Ask(past: set<Mark>): set<Mark> { past + {Asked, Wanted} }

  // It is withdrawn by a resume, a stop and the first half of a reset.
  function Withdraw(past: set<Mark>): set<Mark> { past - {Asked} + {Released} }

  function CallerActs(past: set<Mark>, c: Caller): set<Mark> {
    match c
    case CallerCold(at, origin) =>
      if at == ColdPause then (if origin == ForReset then Ask(past) else past - {Asked})
      else if at == ColdStop then past - {Halt}
      else past
    case Lifecycle(at) => CallActs(past, at)
    case _ => past
  }

  function CallActs(past: set<Mark>, at: LifecyclePc): set<Mark> {
    match at
    case PauseSet => Ask(past)
    case ResumeClear => Withdraw(past)
    case StopSet(_) => past + {Halt, Halted}
    case StopUnpause(_) => Withdraw(past)
    case ResetColdActive => past + {Resetting}
    case ResetActive => past + {Resetting}
    case ResetSet => past + {Again}
    case UndoReset => past - {Resetting}
    case _ => past
  }

  function WorkerActs(past: set<Mark>, w: Worker): set<Mark> {
    match w
    case WorkerCold(at) => if at == ColdPause then Ask(past) else if at == ColdStop then past - {Halt} else past
    case Drive(at) => if at == ResetStop then past - {Halt} else if at == ResetTake then past - {Again} else past
    case Adopt(at) => if at == AdoptPause then Ask(past) else if at == AdoptStop then past - {Halt} else past
    case SaveState(_, at) => if at == SavePause then Ask(past) else past
    case Exec(at) =>
      if at == ExecDebugStop then Ask(past)
      else if at == ExecErrorReset then past - {Again}
      else if at == ExecErrorStop then past + {Halt, Halted}
      else past
    case Settle(at) =>
      if at == SettlePauseCheck && Asked in past then past - {Released}
      else if at == SettleResetDone then past - {Resetting}
      else past
    case Park(at) =>
      if at == ParkContinue then past - {Asked}
      else if at == ParkCancelReset then past - {Again}
      else if at == ParkCancelStop then past + {Halt, Halted}
      else past
    case _ => past
  }

  function Acts(past: set<Mark>, s: System, turn: Turn): set<Mark> {
    match turn
    case CallerTurn(_) => CallerActs(past, s.caller)
    case WorkerTurn(_) => WorkerActs(past, s.worker)
    case _ => past
  }

  // The guest begins to run, and what is asked from then on counts.
  function Begin(past: set<Mark>): set<Mark> {
    past - {Wanted, Halted} + (if Asked in past then {Wanted} else {}) + (if Halt in past then {Halted} else {})
  }

  function Remember(past: set<Mark>, s: System, turn: Turn, t: System): set<Mark> {
    var now := Acts(past, s, turn);
    if s.life != Running && t.life == Running then Begin(now) else now
  }

  function Past(turns: seq<Turn>): set<Mark> {
    if turns == [] then {}
    else
      var n := |turns| - 1;
      Remember(Past(turns[..n]), Run(turns[..n]), turns[n], Run(turns))
  }

  // ---------- invariants ----------

  // The flags are what was asked.
  ghost predicate Mirrored(past: set<Mark>, s: System) {
    && (Asked in past <==> PauseRequested in s.on) && (Halt in past <==> StopRequested in s.on)
    && (Again in past <==> ResetRequested in s.on) && (Resetting in past <==> ResetInProgress in s.on)
    && (Asked in past ==> Wanted in past) && (Halt in past ==> Halted in past)
  }

  // The worker has seen a pause request and neither left the paused wait nor gone back to the driver.
  ghost predicate InPause(w: Worker) {
    match w
    case Serve(_, site, _) => site == FromPark
    case SaveState(site, _) => site == FromPark
    case SaveDone(site, _) => site != FromFinish
    case Settle(at) => at != SettleContinuing && at != SettlePauseCheck
    case Park(at) => at != ParkAdmit
    case _ => false
  }

  // Nothing is paused that was not asked for, and only what was withdrawn is left.
  ghost predicate PauseInv(past: set<Mark>, s: System) {
    && (InPause(s.worker) || s.life == Paused ==> Wanted in past)
    && (InPause(s.worker) && Asked !in past && SaveContinuing !in s.on ==> Released in past)
    && LeaveInv(past, s)
  }

  ghost predicate LeaveInv(past: set<Mark>, s: System) {
    && (s.worker == Park(ParkLeave) ==> Released in past || SaveContinuing in s.on || StopRequested in s.on)
    && (s.worker == Park(ParkEnterRunning) ==> Released in past)
    && (s.worker == Park(ParkContinue) ==> SaveContinuing in s.on)
  }

  // A run ends without failure only because it was asked to.
  ghost predicate EndInv(past: set<Mark>, s: System) {
    && ((s.worker == Drive(RunClose) || s.worker == Drive(ErrorCheck)) && Succeeded in s.on ==> Ended(past, s))
    && (s.worker == Drive(ResetTake) ==> Ended(past, s))
    && (s.worker.Finish? && s.after != LeaveThread && (s.terminal == Stopped || s.terminal == Starting) ==>
          Ended(past, s))
  }

  ghost predicate Ended(past: set<Mark>, s: System) { Halted in past || TerminateRequested in s.on }

  ghost predicate PastInv(past: set<Mark>, s: System) { Mirrored(past, s) && PauseInv(past, s) && EndInv(past, s) }

  // ---------- kept by every step ----------

  lemma BeginMirrors(past: set<Mark>, t: System)
    requires Mirrored(past, t)
    ensures Mirrored(Begin(past), t)
  {
  }

  // A step that moves neither the worker nor any of these flags.
  ghost predicate Aside(s: System, t: System) {
    && t.worker == s.worker && t.life == s.life && t.terminal == s.terminal && t.after == s.after
    && (PauseRequested in t.on <==> PauseRequested in s.on) && (StopRequested in t.on <==> StopRequested in s.on)
    && (ResetRequested in t.on <==> ResetRequested in s.on) && (ResetInProgress in t.on <==> ResetInProgress in s.on)
    && (SaveContinuing in t.on <==> SaveContinuing in s.on) && (Succeeded in t.on <==> Succeeded in s.on)
    && (TerminateRequested in s.on ==> TerminateRequested in t.on)
  }

  lemma AsideRemembers(past: set<Mark>, s: System, t: System)
    requires PastInv(past, s) && Aside(s, t)
    ensures PastInv(past, t)
  {
  }

  // The worker is not ending a run.
  ghost predicate Ending(w: Worker) {
    w == Drive(RunClose) || w == Drive(ErrorCheck) || w == Drive(ResetTake) || w.Finish?
  }

  // ---------- the worker ----------

  lemma LoopMirrors(past: set<Mark>, s: System)
    requires Mirrored(past, s) && s.worker.Loop?
    ensures Mirrored(WorkerActs(past, s.worker), LoopStep(s))
  {
  }

  lemma LoopPauses(past: set<Mark>, s: System)
    requires Mirrored(past, s) && PauseInv(past, s) && LifeZone(s) && s.worker.Loop?
    ensures PauseInv(Remember(past, s, WorkerTurn(0), LoopStep(s)), LoopStep(s))
  {
  }

  lemma LoopEnds(s: System)
    requires s.worker.Loop?
    ensures Ending(LoopStep(s).worker) ==> Leaves(LoopStep(s))
  {
  }

  // The worker leaves its thread, which ends no run.
  ghost predicate Leaves(s: System) { s.worker.Finish? && s.after == LeaveThread }

  lemma LeavingEnds(past: set<Mark>, s: System)
    requires Leaves(s)
    ensures EndInv(past, s)
  {
  }

  lemma LaunchMirrors(past: set<Mark>, s: System, choice: nat)
    requires Mirrored(past, s) && s.worker.Launch?
    ensures Mirrored(WorkerActs(past, s.worker), LaunchStep(s, choice))
  {
  }

  lemma LaunchPauses(past: set<Mark>, s: System, choice: nat)
    requires Mirrored(past, s) && PauseInv(past, s) && LifeZone(s) && s.worker.Launch?
    ensures PauseInv(Remember(past, s, WorkerTurn(0), LaunchStep(s, choice)), LaunchStep(s, choice))
  {
  }

  lemma LaunchEnds(past: set<Mark>, s: System, choice: nat)
    requires Mirrored(past, s) && EndInv(past, s) && s.worker.Launch?
    ensures EndInv(Remember(past, s, WorkerTurn(0), LaunchStep(s, choice)), LaunchStep(s, choice))
  {
  }

  lemma DriveMirrors(past: set<Mark>, s: System, choice: nat)
    requires Mirrored(past, s) && s.worker.Drive?
    ensures Mirrored(WorkerActs(past, s.worker), DriveStep(s, choice))
  {
  }

  lemma DrivePauses(past: set<Mark>, s: System, choice: nat)
    requires Mirrored(past, s) && PauseInv(past, s) && LifeZone(s) && s.worker.Drive?
    ensures PauseInv(Remember(past, s, WorkerTurn(0), DriveStep(s, choice)), DriveStep(s, choice))
  {
  }

  lemma DriveEnds(past: set<Mark>, s: System, choice: nat)
    requires Mirrored(past, s) && EndInv(past, s) && s.worker.Drive?
    ensures EndInv(Remember(past, s, WorkerTurn(0), DriveStep(s, choice)), DriveStep(s, choice))
  {
  }

  lemma ServeMirrors(past: set<Mark>, s: System)
    requires Mirrored(past, s) && s.worker.Serve?
    ensures Mirrored(WorkerActs(past, s.worker), ServeStep(s))
  {
  }

  lemma ServePauses(past: set<Mark>, s: System)
    requires Mirrored(past, s) && PauseInv(past, s) && LifeZone(s) && s.worker.Serve?
    ensures PauseInv(Remember(past, s, WorkerTurn(0), ServeStep(s)), ServeStep(s))
  {
  }

  lemma ServeEndsNothing(s: System)
    requires s.worker.Serve?
    ensures !Ending(ServeStep(s).worker)
  {
  }

  lemma LoadStateMirrors(past: set<Mark>, s: System, choice: nat)
    requires Mirrored(past, s) && s.worker.LoadState?
    ensures Mirrored(WorkerActs(past, s.worker), LoadStep(s, choice))
  {
  }

  lemma LoadStatePauses(past: set<Mark>, s: System, choice: nat)
    requires Mirrored(past, s) && PauseInv(past, s) && LifeZone(s) && s.worker.LoadState?
    ensures PauseInv(Remember(past, s, WorkerTurn(0), LoadStep(s, choice)), LoadStep(s, choice))
  {
  }

  lemma LoadStateEndsNothing(s: System, choice: nat)
    requires s.worker.LoadState?
    ensures !Ending(LoadStep(s, choice).worker)
  {
  }

  lemma AdoptMirrors(past: set<Mark>, s: System)
    requires Mirrored(past, s) && s.worker.Adopt?
    ensures Mirrored(WorkerActs(past, s.worker), AdoptStep(s))
  {
  }

  lemma AdoptPauses(past: set<Mark>, s: System)
    requires Mirrored(past, s) && PauseInv(past, s) && LifeZone(s) && s.worker.Adopt?
    ensures PauseInv(Remember(past, s, WorkerTurn(0), AdoptStep(s)), AdoptStep(s))
  {
  }

  lemma AdoptEndsNothing(s: System)
    requires s.worker.Adopt?
    ensures !Ending(AdoptStep(s).worker)
  {
  }

  lemma SaveStateMirrors(past: set<Mark>, s: System, choice: nat)
    requires Mirrored(past, s) && s.worker.SaveState?
    ensures Mirrored(WorkerActs(past, s.worker), SaveStep(s, choice))
  {
  }

  lemma SaveStatePauses(past: set<Mark>, s: System, choice: nat)
    requires Mirrored(past, s) && PauseInv(past, s) && LifeZone(s) && s.worker.SaveState?
    ensures PauseInv(Remember(past, s, WorkerTurn(0), SaveStep(s, choice)), SaveStep(s, choice))
  {
  }

  lemma SaveStateEndsNothing(s: System, choice: nat)
    requires s.worker.SaveState?
    ensures !Ending(SaveStep(s, choice).worker)
  {
  }

  lemma SaveDoneMirrors(past: set<Mark>, s: System)
    requires Mirrored(past, s) && s.worker.SaveDone?
    ensures Mirrored(WorkerActs(past, s.worker), SaveDoneStep(s))
  {
  }

  lemma SaveDonePauses(past: set<Mark>, s: System)
    requires Mirrored(past, s) && PauseInv(past, s) && LifeZone(s) && s.worker.SaveDone?
    ensures PauseInv(Remember(past, s, WorkerTurn(0), SaveDoneStep(s)), SaveDoneStep(s))
  {
  }

  lemma SaveDoneEndsNothing(s: System)
    requires s.worker.SaveDone?
    ensures !Ending(SaveDoneStep(s).worker)
  {
  }

  lemma ExecMirrors(past: set<Mark>, s: System, choice: nat)
    requires Mirrored(past, s) && s.worker.Exec?
    ensures Mirrored(WorkerActs(past, s.worker), ExecStep(s, choice))
  {
  }

  lemma ExecPauses(past: set<Mark>, s: System, choice: nat)
    requires Mirrored(past, s) && PauseInv(past, s) && LifeZone(s) && s.worker.Exec?
    ensures PauseInv(Remember(past, s, WorkerTurn(0), ExecStep(s, choice)), ExecStep(s, choice))
  {
  }

  lemma ExecEndsNothing(s: System, choice: nat)
    requires s.worker.Exec?
    ensures !Ending(ExecStep(s, choice).worker)
  {
  }

  lemma SettleMirrors(past: set<Mark>, s: System)
    requires Mirrored(past, s) && s.worker.Settle?
    ensures Mirrored(WorkerActs(past, s.worker), SettleStep(s))
  {
  }

  lemma SettlePauses(past: set<Mark>, s: System)
    requires Mirrored(past, s) && PauseInv(past, s) && LifeZone(s) && s.worker.Settle?
    ensures PauseInv(Remember(past, s, WorkerTurn(0), SettleStep(s)), SettleStep(s))
  {
  }

  lemma SettleEndsNothing(s: System)
    requires s.worker.Settle?
    ensures !Ending(SettleStep(s).worker)
  {
  }

  lemma ParkMirrors(past: set<Mark>, s: System)
    requires Mirrored(past, s) && s.worker.Park?
    ensures Mirrored(WorkerActs(past, s.worker), ParkStep(s))
  {
  }

  lemma ParkLeaves(past: set<Mark>, s: System)
    requires Mirrored(past, s) && PauseInv(past, s) && s.worker.Park?
    ensures LeaveInv(WorkerActs(past, s.worker), ParkStep(s))
  {
  }

  lemma ParkPauses(past: set<Mark>, s: System)
    requires Mirrored(past, s) && PauseInv(past, s) && LifeZone(s) && s.worker.Park?
    ensures PauseInv(Remember(past, s, WorkerTurn(0), ParkStep(s)), ParkStep(s))
  {
    ParkLeaves(past, s);
  }

  lemma ParkEndsNothing(s: System)
    requires s.worker.Park?
    ensures !Ending(ParkStep(s).worker)
  {
  }

  lemma FinishMirrors(past: set<Mark>, s: System)
    requires Mirrored(past, s) && s.worker.Finish?
    ensures Mirrored(WorkerActs(past, s.worker), FinishStep(s))
  {
  }

  lemma FinishPauses(past: set<Mark>, s: System)
    requires Mirrored(past, s) && PauseInv(past, s) && LifeZone(s) && s.worker.Finish?
    ensures PauseInv(Remember(past, s, WorkerTurn(0), FinishStep(s)), FinishStep(s))
  {
  }

  lemma FinishEnds(past: set<Mark>, s: System)
    requires Mirrored(past, s) && EndInv(past, s) && s.worker.Finish?
    ensures EndInv(Remember(past, s, WorkerTurn(0), FinishStep(s)), FinishStep(s))
  {
  }

  lemma FlushMirrors(past: set<Mark>, s: System)
    requires Mirrored(past, s) && s.worker.Flush?
    ensures Mirrored(WorkerActs(past, s.worker), FlushStep(s))
  {
  }

  lemma FlushPauses(past: set<Mark>, s: System)
    requires Mirrored(past, s) && PauseInv(past, s) && LifeZone(s) && s.worker.Flush?
    ensures PauseInv(Remember(past, s, WorkerTurn(0), FlushStep(s)), FlushStep(s))
  {
  }

  lemma FlushEndsNothing(s: System)
    requires s.worker.Flush?
    ensures !Ending(FlushStep(s).worker)
  {
  }

  lemma WorkerColdMirrors(past: set<Mark>, s: System)
    requires Mirrored(past, s) && s.worker.WorkerCold?
    ensures Mirrored(WorkerActs(past, s.worker), WorkerColdStep(s))
  {
  }

  lemma WorkerColdPauses(past: set<Mark>, s: System)
    requires Mirrored(past, s) && PauseInv(past, s) && LifeZone(s) && s.worker.WorkerCold?
    ensures PauseInv(Remember(past, s, WorkerTurn(0), WorkerColdStep(s)), WorkerColdStep(s))
  {
  }

  lemma WorkerColdEndsNothing(s: System)
    requires s.worker.WorkerCold?
    ensures !Ending(WorkerColdStep(s).worker)
  {
  }

  // ---------- the caller ----------

  lemma BeginAside(s: System, choice: nat)
    requires s.caller == Idle
    ensures Aside(s, CallerBegin(s, choice))
  {
  }

  lemma SubmitAside(s: System)
    requires s.caller.Submit?
    ensures Aside(s, SubmitStep(s))
  {
  }

  lemma CloseAside(s: System)
    requires s.caller.Closing?
    ensures Aside(s, CloseStep(s))
  {
  }

  lemma PassAside(s: System)
    ensures Aside(s, PassStep(s))
  {
  }

  lemma ColdMirrors(past: set<Mark>, s: System)
    requires Mirrored(past, s) && s.caller.CallerCold?
    ensures Mirrored(CallerActs(past, s.caller), CallerColdStep(s))
  {
  }

  lemma ColdPauses(past: set<Mark>, s: System)
    requires Mirrored(past, s) && PauseInv(past, s) && LifeZone(s) && LifeInv(s) && s.caller.CallerCold?
    ensures PauseInv(CallerActs(past, s.caller), CallerColdStep(s)) 
    ensures CallerColdStep(s).life == s.life || CallerColdStep(s).life == Starting
  {
  }

  lemma ColdEnds(past: set<Mark>, s: System)
    requires EndInv(past, s) && s.caller.CallerCold?
    ensures EndInv(CallerActs(past, s.caller), CallerColdStep(s))
  {
  }

  lemma CallMirrors(past: set<Mark>, s: System)
    requires Mirrored(past, s) && s.caller.Lifecycle?
    ensures Mirrored(CallerActs(past, s.caller), LifecycleStep(s))
  {
  }

  lemma CallPauses(past: set<Mark>, s: System)
    requires Mirrored(past, s) && PauseInv(past, s) && s.caller.Lifecycle?
    ensures PauseInv(CallerActs(past, s.caller), LifecycleStep(s)) && LifecycleStep(s).life == s.life
  {
  }

  lemma CallEnds(past: set<Mark>, s: System)
    requires EndInv(past, s) && s.caller.Lifecycle?
    ensures EndInv(CallerActs(past, s.caller), LifecycleStep(s))
  {
  }

  // ---------- every step ----------

  // A worker's step keeps everything, given what it does to each part.
  lemma WorkerKeeps(past: set<Mark>, s: System, t: System, choice: nat)
    requires Mirrored(WorkerActs(past, s.worker), t) && PauseInv(Remember(past, s, WorkerTurn(0), t), t)
    requires !Ending(t.worker) || EndInv(Remember(past, s, WorkerTurn(0), t), t)
    ensures PastInv(Remember(past, s, WorkerTurn(choice), t), t)
  {
    BeginMirrors(WorkerActs(past, s.worker), t);
    assert Remember(past, s, WorkerTurn(choice), t) == Remember(past, s, WorkerTurn(0), t);
  }

  lemma LoopTurn(past: set<Mark>, s: System, choice: nat)
    requires PastInv(past, s) && LifeZone(s) && s.worker.Loop?
    ensures PastInv(Remember(past, s, WorkerTurn(choice), LoopStep(s)), LoopStep(s))
  {
    LoopMirrors(past, s);
    LoopPauses(past, s);
    LoopEnds(s);
    if Leaves(LoopStep(s)) { LeavingEnds(Remember(past, s, WorkerTurn(0), LoopStep(s)), LoopStep(s)); }
    WorkerKeeps(past, s, LoopStep(s), choice);
  }

  lemma LaunchTurn(past: set<Mark>, s: System, choice: nat)
    requires PastInv(past, s) && LifeZone(s) && s.worker.Launch?
    ensures PastInv(Remember(past, s, WorkerTurn(choice), LaunchStep(s, choice)), LaunchStep(s, choice))
  {
    LaunchMirrors(past, s, choice);
    LaunchPauses(past, s, choice);
    LaunchEnds(past, s, choice);
    WorkerKeeps(past, s, LaunchStep(s, choice), choice);
  }

  lemma DriveTurn(past: set<Mark>, s: System, choice: nat)
    requires PastInv(past, s) && LifeZone(s) && s.worker.Drive?
    ensures PastInv(Remember(past, s, WorkerTurn(choice), DriveStep(s, choice)), DriveStep(s, choice))
  {
    DriveMirrors(past, s, choice);
    DrivePauses(past, s, choice);
    DriveEnds(past, s, choice);
    WorkerKeeps(past, s, DriveStep(s, choice), choice);
  }

  lemma ServeTurn(past: set<Mark>, s: System, choice: nat)
    requires PastInv(past, s) && LifeZone(s) && s.worker.Serve?
    ensures PastInv(Remember(past, s, WorkerTurn(choice), ServeStep(s)), ServeStep(s))
  {
    ServeMirrors(past, s);
    ServePauses(past, s);
    ServeEndsNothing(s);
    WorkerKeeps(past, s, ServeStep(s), choice);
  }

  lemma LoadStateTurn(past: set<Mark>, s: System, choice: nat)
    requires PastInv(past, s) && LifeZone(s) && s.worker.LoadState?
    ensures PastInv(Remember(past, s, WorkerTurn(choice), LoadStep(s, choice)), LoadStep(s, choice))
  {
    LoadStateMirrors(past, s, choice);
    LoadStatePauses(past, s, choice);
    LoadStateEndsNothing(s, choice);
    WorkerKeeps(past, s, LoadStep(s, choice), choice);
  }

  lemma AdoptTurn(past: set<Mark>, s: System, choice: nat)
    requires PastInv(past, s) && LifeZone(s) && s.worker.Adopt?
    ensures PastInv(Remember(past, s, WorkerTurn(choice), AdoptStep(s)), AdoptStep(s))
  {
    AdoptMirrors(past, s);
    AdoptPauses(past, s);
    AdoptEndsNothing(s);
    WorkerKeeps(past, s, AdoptStep(s), choice);
  }

  lemma SaveStateTurn(past: set<Mark>, s: System, choice: nat)
    requires PastInv(past, s) && LifeZone(s) && s.worker.SaveState?
    ensures PastInv(Remember(past, s, WorkerTurn(choice), SaveStep(s, choice)), SaveStep(s, choice))
  {
    SaveStateMirrors(past, s, choice);
    SaveStatePauses(past, s, choice);
    SaveStateEndsNothing(s, choice);
    WorkerKeeps(past, s, SaveStep(s, choice), choice);
  }

  lemma SaveDoneTurn(past: set<Mark>, s: System, choice: nat)
    requires PastInv(past, s) && LifeZone(s) && s.worker.SaveDone?
    ensures PastInv(Remember(past, s, WorkerTurn(choice), SaveDoneStep(s)), SaveDoneStep(s))
  {
    SaveDoneMirrors(past, s);
    SaveDonePauses(past, s);
    SaveDoneEndsNothing(s);
    WorkerKeeps(past, s, SaveDoneStep(s), choice);
  }

  lemma ExecTurn(past: set<Mark>, s: System, choice: nat)
    requires PastInv(past, s) && LifeZone(s) && s.worker.Exec?
    ensures PastInv(Remember(past, s, WorkerTurn(choice), ExecStep(s, choice)), ExecStep(s, choice))
  {
    ExecMirrors(past, s, choice);
    ExecPauses(past, s, choice);
    ExecEndsNothing(s, choice);
    WorkerKeeps(past, s, ExecStep(s, choice), choice);
  }

  lemma SettleTurn(past: set<Mark>, s: System, choice: nat)
    requires PastInv(past, s) && LifeZone(s) && s.worker.Settle?
    ensures PastInv(Remember(past, s, WorkerTurn(choice), SettleStep(s)), SettleStep(s))
  {
    SettleMirrors(past, s);
    SettlePauses(past, s);
    SettleEndsNothing(s);
    WorkerKeeps(past, s, SettleStep(s), choice);
  }

  lemma ParkTurn(past: set<Mark>, s: System, choice: nat)
    requires PastInv(past, s) && LifeZone(s) && s.worker.Park?
    ensures PastInv(Remember(past, s, WorkerTurn(choice), ParkStep(s)), ParkStep(s))
  {
    ParkMirrors(past, s);
    ParkPauses(past, s);
    ParkEndsNothing(s);
    WorkerKeeps(past, s, ParkStep(s), choice);
  }

  lemma FinishTurn(past: set<Mark>, s: System, choice: nat)
    requires PastInv(past, s) && LifeZone(s) && s.worker.Finish?
    ensures PastInv(Remember(past, s, WorkerTurn(choice), FinishStep(s)), FinishStep(s))
  {
    FinishMirrors(past, s);
    FinishPauses(past, s);
    FinishEnds(past, s);
    WorkerKeeps(past, s, FinishStep(s), choice);
  }

  lemma FlushTurn(past: set<Mark>, s: System, choice: nat)
    requires PastInv(past, s) && LifeZone(s) && s.worker.Flush?
    ensures PastInv(Remember(past, s, WorkerTurn(choice), FlushStep(s)), FlushStep(s))
  {
    FlushMirrors(past, s);
    FlushPauses(past, s);
    FlushEndsNothing(s);
    WorkerKeeps(past, s, FlushStep(s), choice);
  }

  lemma WorkerColdTurn(past: set<Mark>, s: System, choice: nat)
    requires PastInv(past, s) && LifeZone(s) && s.worker.WorkerCold?
    ensures PastInv(Remember(past, s, WorkerTurn(choice), WorkerColdStep(s)), WorkerColdStep(s))
  {
    WorkerColdMirrors(past, s);
    WorkerColdPauses(past, s);
    WorkerColdEndsNothing(s);
    WorkerKeeps(past, s, WorkerColdStep(s), choice);
  }

  lemma WorkerRemembers(past: set<Mark>, s: System, choice: nat)
    requires PastInv(past, s) && LifeZone(s)
    ensures PastInv(Remember(past, s, WorkerTurn(choice), WorkerStep(s, choice)), WorkerStep(s, choice))
  {
    match s.worker
    case Loop(_) => LoopTurn(past, s, choice);
    case Launch(_) => LaunchTurn(past, s, choice);
    case Drive(_) => DriveTurn(past, s, choice);
    case Serve(_, _, _) => ServeTurn(past, s, choice);
    case LoadState(_) => LoadStateTurn(past, s, choice);
    case Adopt(_) => AdoptTurn(past, s, choice);
    case SaveState(_, _) => SaveStateTurn(past, s, choice);
    case SaveDone(_, _) => SaveDoneTurn(past, s, choice);
    case Exec(_) => ExecTurn(past, s, choice);
    case Settle(_) => SettleTurn(past, s, choice);
    case Park(_) => ParkTurn(past, s, choice);
    case Finish(_) => FinishTurn(past, s, choice);
    case Flush(_) => FlushTurn(past, s, choice);
    case WorkerCold(_) => WorkerColdTurn(past, s, choice);
    case Exited =>
  }

  lemma ColdTurn(past: set<Mark>, s: System, choice: nat)
    requires PastInv(past, s) && LifeZone(s) && LifeInv(s) && s.caller.CallerCold?
    ensures PastInv(Remember(past, s, CallerTurn(choice), CallerColdStep(s)), CallerColdStep(s))
  {
    ColdMirrors(past, s);
    ColdPauses(past, s);
    ColdEnds(past, s);
  }

  lemma CallTurn(past: set<Mark>, s: System, choice: nat)
    requires PastInv(past, s) && s.caller.Lifecycle?
    ensures PastInv(Remember(past, s, CallerTurn(choice), LifecycleStep(s)), LifecycleStep(s))
  {
    CallMirrors(past, s);
    CallPauses(past, s);
    CallEnds(past, s);
  }

  lemma CallerRemembers(past: set<Mark>, s: System, choice: nat)
    requires PastInv(past, s) && LifeZone(s) && LifeInv(s)
    ensures PastInv(Remember(past, s, CallerTurn(choice), CallerStep(s, choice)), CallerStep(s, choice))
  {
    match s.caller
    case CallerCold(_, _) => ColdTurn(past, s, choice);
    case Lifecycle(_) => CallTurn(past, s, choice);
    case Idle =>
      BeginAside(s, choice);
      AsideRemembers(past, s, CallerBegin(s, choice));
    case Submit(_, _) =>
      SubmitAside(s);
      AsideRemembers(past, s, SubmitStep(s));
    case Closing(_) =>
      CloseAside(s);
      AsideRemembers(past, s, CloseStep(s));
    case _ =>
      PassAside(s);
      AsideRemembers(past, s, PassStep(s));
  }

  lemma StepRemembers(past: set<Mark>, s: System, turn: Turn)
    requires PastInv(past, s) && LifeZone(s) && LifeInv(s)
    ensures PastInv(Remember(past, s, turn, Step(s, turn)), Step(s, turn))
  {
    match turn
    case CallerTurn(choice) => CallerRemembers(past, s, choice);
    case WorkerTurn(choice) => WorkerRemembers(past, s, choice);
    case InputTurn => AsideRemembers(past, s, OfferInput(s));
    case CancelDebugTurn => AsideRemembers(past, s, CancelDebug(s));
  }

  // Every schedule keeps the flags to what was asked in it.
  lemma {:induction false} RunRemembers(turns: seq<Turn>)
    ensures PastInv(Past(turns), Run(turns))
  {
    if turns != [] {
      var n := |turns| - 1;
      RunRemembers(turns[..n]);
      RunKeeps(turns[..n]);
      RunKeepsSave(turns[..n]);
      StepRemembers(Past(turns[..n]), Run(turns[..n]), turns[n]);
    }
  }

  // ---------- what follows ----------

  // The request flags are exactly what was asked.
  lemma FlagsAreAsked(turns: seq<Turn>)
    ensures var s, past := Run(turns), Past(turns);
      && (PauseRequested in s.on <==> Asked in past) && (StopRequested in s.on <==> Halt in past)
      && (ResetRequested in s.on <==> Again in past) && (ResetInProgress in s.on <==> Resetting in past)
  {
    RunRemembers(turns);
  }

  // The guest is PAUSED only if a pause, reset, load, debug stop or save has asked for it since the
  // guest last began to run.
  lemma PausedWasAsked(turns: seq<Turn>)
    ensures Run(turns).life == Paused ==> Wanted in Past(turns)
  {
    RunRemembers(turns);
  }

  // It goes from PAUSED to RUNNING only if a resume, stop or reset has withdrawn the pause since the
  // worker saw it. A guest that runs on for a save stays PAUSED.
  lemma OnlyTheReleasedRun(turns: seq<Turn>, turn: Turn)
    requires Run(turns).life == Paused && Step(Run(turns), turn).life == Running
    ensures Released in Past(turns)
  {
    RunRemembers(turns);
    RunKeepsSave(turns);
    LeavesByEntering(Run(turns), turn);
    assert PauseInv(Past(turns), Run(turns));
  }

  lemma LeavesByEntering(s: System, turn: Turn)
    requires LifeZone(s) && s.life == Paused && Step(s, turn).life == Running
    ensures s.worker == Park(ParkEnterRunning)
  {
  }

  // A parked guest whose worker looks again, with no stop asked for and no save to run on for, is
  // left alone exactly if the pause is still asked for.
  lemma ParkedRunsIff(turns: seq<Turn>)
    requires Run(turns).worker == Park(ParkPauseCheck) && StopRequested !in Run(turns).on
    requires SaveContinuing !in Run(turns).on
    ensures var s := Run(turns);
      && WorkerStep(WorkerStep(WorkerStep(s, 0), 0), 0).life == (if Asked in Past(turns) then Paused else Running)
      && (Asked in Past(turns) || Released in Past(turns))
  {
    RunRemembers(turns);
    RunKeepsSave(turns);
    ThreeTurns(Run(turns));
  }

  lemma ThreeTurns(s: System)
    requires LifeZone(s) && s.worker == Park(ParkPauseCheck) && {StopRequested, SaveContinuing} !! s.on
    ensures WorkerStep(WorkerStep(WorkerStep(s, 0), 0), 0).life == if PauseRequested in s.on then Paused else Running
  {
    var t := WorkerStep(WorkerStep(s, 0), 0);
    assert t.life == Paused && t.worker == Park(if PauseRequested in s.on then ParkWait else ParkEnterRunning);
  }

  // A request goes on to be accepted exactly in the states it is meant for.
  lemma RequestsHaveTheirStates(s: System, k: Kind)
    requires s.caller == Submit(k, SubmitLife)
    ensures SubmitStep(s).caller == Submit(k, SubmitReset) <==>
      || (k == Media && (s.life == Stopped || s.life == Paused)) || (k == Debug && s.life == Paused)
      || (k == Save && (s.life == Running || s.life == Paused)) || (k == Load && s.life == Stopped)
  {
  }

  // A run that was started or resumed with no pause asked for opens its input, any other keeps it
  // closed.
  lemma LaunchAdmits(turns: seq<Turn>, choice: nat, choice': nat)
    requires Run(turns).worker == Launch(AdmitLoad)
    ensures var s := WorkerStep(WorkerStep(Run(turns), choice), choice');
      s.worker == Drive(InDriver) && (Accepting in s.on <==> Asked !in Past(turns))
  {
    RunRemembers(turns);
  }

  // A run ends without a failure only if a stop, reset or shutdown has asked for it since the guest
  // began to run; then it starts anew exactly if a reset has asked for that.
  lemma RunEndsAsAsked(turns: seq<Turn>, choice: nat)
    requires Run(turns).worker == Drive(ResetTake)
    ensures var s, t := Run(turns), WorkerStep(Run(turns), choice);
      && (Halted in Past(turns) || TerminateRequested in s.on)
      && t.worker == Finish(FinishClose)
      && (if Again in Past(turns) then t.after == RestartCold && t.terminal == Starting
          else t.after == BackToLoop && t.terminal == Stopped)
  {
    RunRemembers(turns);
  }

  // ---------- a reset that does not stay parked ----------

  lemma Worker(turns: seq<Turn>, choice: nat) returns (more: seq<Turn>)
    ensures more == turns + [WorkerTurn(choice)] && Run(more) == WorkerStep(Run(turns), choice)
  {
    more := turns + [WorkerTurn(choice)];
    assert more[..|turns|] == turns;
  }

  lemma Caller(turns: seq<Turn>, choice: nat) returns (more: seq<Turn>)
    ensures more == turns + [CallerTurn(choice)] && Run(more) == CallerStep(Run(turns), choice)
  {
    more := turns + [CallerTurn(choice)];
    assert more[..|turns|] == turns;
  }

  // Nothing is requested and nobody leaves.
  ghost predicate Still(s: System) {
    s.tickets == {} && {TerminateRequested, TaskCancelled, RestoredStart, SaveContinuing, SaveCaptured} !! s.on
  }

  // Nobody holds the lock or asks for a stop either.
  ghost predicate Quiet(s: System) { Still(s) && s.lock == Free && StopRequested !in s.on }

  // The worker takes up a start request.
  lemma TakesUp(turns: seq<Turn>) returns (more: seq<Turn>)
    requires var s := Run(turns);
      Quiet(s) && s.worker == Loop(Wait) && s.life == Starting && {CommandEvent, StartRequested} <= s.on
    ensures var s, t := Run(turns), Run(more);
      && Quiet(t) && t.worker == Launch(DriverReset) && t.life == Starting && t.caller == s.caller
      && (PauseRequested in t.on <==> PauseRequested in s.on) && (ResetInProgress in t.on <==> ResetInProgress in s.on)
  {
    more := Worker(turns, 0);
    more := Worker(more, 0);
    more := Worker(more, 0);
    assert Run(more).worker == Serve(Debug, FromLoop, ServeLock);
    more := Worker(more, 0);
    more := Worker(more, 0);
    assert Run(more).worker == Loop(TerminateCheck2);
    more := Worker(more, 0);
    more := Worker(more, 0);
    more := Worker(more, 0);
    assert Run(more).worker == Loop(TakeRestored);
    more := Worker(more, 0);
    more := Worker(more, 0);
  }

  // And the guest runs.
  lemma Launches(turns: seq<Turn>) returns (more: seq<Turn>)
    requires var s := Run(turns);
      Quiet(s) && s.worker == Launch(DriverReset) && s.life == Starting
    ensures var s, t := Run(turns), Run(more);
      && Quiet(t) && t.worker == Drive(InDriver) && t.life == Running && t.caller == s.caller
      && (PauseRequested in t.on <==> PauseRequested in s.on) && (ResetInProgress in t.on <==> ResetInProgress in s.on)
  {
    more := turns;
    more := Worker(more, 0);
    more := Worker(more, 0);
    more := Worker(more, 0);
    assert Run(more).worker == Launch(AdmitLoad) && Run(more).life == Running;
    more := Worker(more, 0);
    more := Worker(more, 0);
  }

  // A start call.
  lemma Starts(turns: seq<Turn>) returns (more: seq<Turn>)
    requires var s := Run(turns);
      Quiet(s) && s.worker == Loop(Wait) && s.life == Stopped && s.caller == Idle && Joined !in s.on
    ensures var t := Run(more);
      Quiet(t) && t.worker == Loop(Wait) && t.life == Stopped && t.caller == CallerCold(ColdClear, ForStart)
  {
    more := turns;
    more := Caller(more, 0);
    more := Caller(more, 0);
    more := Caller(more, 0);
  }

  // Its next accesses.
  lemma Prepares(turns: seq<Turn>) returns (more: seq<Turn>)
    requires var s := Run(turns);
      Quiet(s) && s.worker == Loop(Wait) && s.life == Stopped && s.caller == CallerCold(ColdClear, ForStart)
    ensures var t := Run(more);
      Quiet(t) && t.worker == Loop(Wait) && t.life == Stopped && t.caller == CallerCold(ColdStop, ForStart)
  {
    more := turns;
    more := Caller(more, 0);
    more := Caller(more, 0);
    more := Caller(more, 0);
  }

  lemma Marks(turns: seq<Turn>) returns (more: seq<Turn>)
    requires var s := Run(turns); Quiet(s) && s.worker == Loop(Wait) && s.caller == CallerCold(ColdStop, ForStart)
    ensures var t := Run(more);
      Quiet(t) && t.worker == Loop(Wait) && t.life == Starting && t.caller == CallerCold(ColdRun, ForStart)
  {
    more := turns;
    more := Caller(more, 0);
    more := Caller(more, 0);
  }

  lemma Numbers(turns: seq<Turn>) returns (more: seq<Turn>)
    requires var s := Run(turns);
      Quiet(s) && s.worker == Loop(Wait) && s.life == Starting && s.caller == CallerCold(ColdRun, ForStart)
    ensures var t := Run(more);
      && Quiet(t) && t.worker == Loop(Wait) && t.life == Starting && t.caller == CallerCold(ColdSignal, ForStart)
      && StartRequested in t.on
  {
    more := turns;
    more := Caller(more, 0);
    more := Caller(more, 0);
  }

  lemma Schedules(turns: seq<Turn>) returns (more: seq<Turn>)
    requires var s := Run(turns);
      && Quiet(s) && s.worker == Loop(Wait) && s.life == Starting && s.caller == CallerCold(ColdSignal, ForStart)
      && StartRequested in s.on
    ensures var t := Run(more);
      && Quiet(t) && t.worker == Loop(Wait) && t.life == Starting && t.caller == Idle
      && {CommandEvent, StartRequested} <= t.on
  {
    more := Caller(turns, 0);
  }

  // A reset call.
  lemma CallsReset(turns: seq<Turn>) returns (more: seq<Turn>)
    requires var s := Run(turns); Quiet(s) && s.worker == Drive(InDriver) && s.life == Running && s.caller == Idle
    ensures var t := Run(more);
      && Quiet(t) && t.worker == Drive(InDriver) && t.life == Running && t.caller == Lifecycle(ResetSet)
      && ResetInProgress in t.on
  {
    more := Caller(turns, 4);
    more := Caller(more, 0);
    more := Caller(more, 0);
  }

  // Up to where it withdraws the pause.
  lemma AsksForReset(turns: seq<Turn>) returns (more: seq<Turn>)
    requires var s := Run(turns);
      && Quiet(s) && s.worker == Drive(InDriver) && s.life == Running && s.caller == Lifecycle(ResetSet)
      && ResetInProgress in s.on
    ensures var t := Run(more);
      && Still(t) && t.lock == Free
      && t.worker == Drive(InDriver) && t.life == Running && t.caller == Lifecycle(StopUnpause(ToStop))
      && {ResetInProgress, ResetRequested, StopRequested} <= t.on
  {
    more := turns;
    more := Caller(more, 0);
    more := Caller(more, 0);
  }

  // The worker leaves the run.
  lemma Unwinds(turns: seq<Turn>) returns (more: seq<Turn>)
    requires var s := Run(turns);
      && Still(s) && s.lock == Free
      && s.worker == Drive(InDriver) && s.life == Running && {ResetInProgress, ResetRequested, StopRequested} <= s.on
    ensures var s, t := Run(turns), Run(more);
      && Still(t) && t.lock == Free && t.worker == Finish(FinishClose) && t.terminal == Starting
      && t.after == RestartCold && t.life == Running && t.caller == s.caller && ResetInProgress in t.on
  {
    more := turns;
    more := Worker(more, 1);
    more := Worker(more, 0);
    more := Worker(more, 0);
    assert Run(more).worker == Drive(ErrorCheck);
    more := Worker(more, 0);
    more := Worker(more, 0);
  }

  // It stores the outcome.
  lemma Completes(turns: seq<Turn>) returns (more: seq<Turn>)
    requires var s := Run(turns);
      && Still(s) && s.lock == Free && s.worker == Finish(FinishClose) && s.terminal == Starting
      && s.after == RestartCold && s.life == Running && ResetInProgress in s.on
    ensures var s, t := Run(turns), Run(more);
      && Still(t) && t.lock == ByWorker && t.worker == Flush(FlushLoad) && t.after == RestartCold && t.life == Starting
      && t.caller == s.caller && ResetInProgress in t.on
  {
    more := turns;
    more := Worker(more, 0);
    more := Worker(more, 0);
    more := Worker(more, 0);
    more := Worker(more, 0);
    more := Worker(more, 0);
  }

  // Then it begins the new run.
  lemma Flushes(turns: seq<Turn>) returns (more: seq<Turn>)
    requires var s := Run(turns);
      && Still(s) && s.lock == ByWorker
      && s.worker == Flush(FlushLoad) && s.after == RestartCold && s.life == Starting && ResetInProgress in s.on
    ensures var s, t := Run(turns), Run(more);
      && Quiet(t) && t.worker == WorkerCold(ColdClose) && t.life == Starting && t.caller == s.caller
      && ResetInProgress in t.on
  {
    more := turns;
    more := Worker(more, 0);
    more := Worker(more, 0);
    more := Worker(more, 0);
    more := Worker(more, 0);
    more := Worker(more, 0);
    assert Run(more).worker == Drive(ResetStop);
    more := Worker(more, 0);
  }

  // It asks for the guest to be parked.
  lemma Reclears(turns: seq<Turn>) returns (more: seq<Turn>)
    requires var s := Run(turns); Quiet(s) && s.worker == WorkerCold(ColdClose) && ResetInProgress in s.on
    ensures var s, t := Run(turns), Run(more);
      Quiet(t) && t.worker == WorkerCold(ColdPause) && t.caller == s.caller && ResetInProgress in t.on
  {
    more := turns;
    more := Worker(more, 0);
    more := Worker(more, 0);
    more := Worker(more, 0);
  }

  lemma Reparks(turns: seq<Turn>) returns (more: seq<Turn>)
    requires var s := Run(turns); Quiet(s) && s.worker == WorkerCold(ColdPause) && ResetInProgress in s.on
    ensures var s, t := Run(turns), Run(more);
      && Quiet(t) && t.worker == WorkerCold(ColdRun) && t.life == Starting && t.caller == s.caller
      && {ResetInProgress, PauseRequested} <= t.on
  {
    more := turns;
    more := Worker(more, 0);
    more := Worker(more, 0);
    more := Worker(more, 0);
  }

  lemma Renews(turns: seq<Turn>) returns (more: seq<Turn>)
    requires var s := Run(turns);
      && Quiet(s) && s.worker == WorkerCold(ColdRun) && s.life == Starting
      && {ResetInProgress, PauseRequested} <= s.on
    ensures var s, t := Run(turns), Run(more);
      && Quiet(t) && t.worker == Loop(Wait) && t.life == Starting && t.caller == s.caller
      && {ResetInProgress, PauseRequested, CommandEvent, StartRequested} <= t.on
  {
    more := turns;
    more := Worker(more, 0);
    more := Worker(more, 0);
    more := Worker(more, 0);
  }

  // The executor callback meets the request.
  lemma Meets(turns: seq<Turn>) returns (more: seq<Turn>)
    requires var s := Run(turns);
      Quiet(s) && s.worker == Drive(InDriver) && s.life == Running && PauseRequested in s.on
    ensures var s, t := Run(turns), Run(more);
      && Quiet(t) && t.worker == Settle(SettleContinuing) && t.life == Running && t.caller == s.caller
      && PauseRequested in t.on && SuppressPaused !in t.on
  {
    more := turns;
    more := Worker(more, 0);
    more := Worker(more, 0);
    more := Worker(more, 0);
    more := Worker(more, 0);
    assert Run(more).worker == Exec(ExecPauseCheck);
    more := Worker(more, 0);
    more := Worker(more, 0);
    more := Worker(more, 1);
  }

  // And parks the guest: the reset is complete.
  lemma Parks(turns: seq<Turn>) returns (more: seq<Turn>)
    requires var s := Run(turns);
      Quiet(s) && s.worker == Settle(SettleContinuing) && s.life == Running && PauseRequested in s.on
      && SuppressPaused !in s.on
    ensures var s, t := Run(turns), Run(more);
      && Quiet(t) && t.worker == Park(ParkPauseCheck) && t.life == Paused && t.caller == s.caller
      && ResetInProgress !in t.on
  {
    more := turns;
    more := Worker(more, 0);
    more := Worker(more, 0);
    more := Worker(more, 0);
    more := Worker(more, 0);
    assert Run(more).worker == Settle(SettleStopCheck2);
    more := Worker(more, 0);
    more := Worker(more, 0);
    more := Worker(more, 0);
    assert Run(more).worker == Settle(SettleReadyCheck);
    more := Worker(more, 0);
    more := Worker(more, 0);
  }

  // The reset call withdraws the pause it is too late for, and the guest runs on.
  lemma RunsOn(turns: seq<Turn>) returns (more: seq<Turn>)
    requires var s := Run(turns);
      && Quiet(s) && s.worker == Park(ParkPauseCheck) && s.life == Paused && s.caller == Lifecycle(StopUnpause(ToStop))
    ensures more == turns + [CallerTurn(0)] + [WorkerTurn(0)] + [WorkerTurn(0)] + [WorkerTurn(0)]
    ensures Run(more).life == Running
  {
    more := Caller(turns, 0);
    more := Worker(more, 0);
    more := Worker(more, 0);
    more := Worker(more, 0);
  }

  lemma ResetCompletes() returns (turns: seq<Turn>)
    ensures var s := Run(turns);
      && Quiet(s) && s.worker == Park(ParkPauseCheck) && s.life == Paused && s.caller == Lifecycle(StopUnpause(ToStop))
      && ResetInProgress !in s.on
  {
    turns := Starts([]);
    turns := Prepares(turns);
    turns := Marks(turns);
    turns := Numbers(turns);
    turns := Schedules(turns);
    turns := TakesUp(turns);
    turns := Launches(turns);
    turns := CallsReset(turns);
    turns := AsksForReset(turns);
    turns := Unwinds(turns);
    turns := Completes(turns);
    turns := Flushes(turns);
    turns := Reclears(turns);
    turns := Reparks(turns);
    turns := Renews(turns);
    turns := TakesUp(turns);
    turns := Launches(turns);
    turns := Meets(turns);
    turns := Parks(turns);
  }

  // A reset need not stay parked: a schedule in which it is complete and the guest PAUSED before
  // the reset call has withdrawn the old pause, so that the guest runs on without any other call.
  lemma ResetRunsOn() returns (turns: seq<Turn>, more: seq<Turn>)
    ensures Run(turns).life == Paused && ResetInProgress !in Run(turns).on
    ensures more == turns + [CallerTurn(0)] + [WorkerTurn(0)] + [WorkerTurn(0)] + [WorkerTurn(0)]
    ensures Run(turns).caller == Lifecycle(StopUnpause(ToStop)) && Run(more).life == Running
  {
    turns := ResetCompletes();
    more := RunsOn(turns);
  }
}
