/**
 The wake-up of a state read. A save accepted while the guest is paused relies on the command
 event; one accepted in a run is also polled by the executor callback, which may have to run
 the guest on for a while with the state still PAUSED.
 */
module MachineSave {
  import opened MachineModel
  import opened MachineProof

  ghost predicate Alive(life: Life) { life == Running || life == Paused }

  // The worker is in a run, or ending one and has not stored its outcome.
  ghost predicate InLife(w: Worker) {
    match w
    case Launch(at) => at == AdmitLoad || at == AdmitOpen || at == AdmitClosed
    case Drive(at) => at != ResetStop
    case Serve(_, site, _) => site == FromPark
    case SaveState(_, _) => true
    case SaveDone(site, _) => site != FromFinish
    case Exec(_) => true
    case Settle(_) => true
    case Park(_) => true
    case Finish(at) => at != FinishSave
    case _ => false
  }

  // Or it has not yet ended the save.
  ghost predicate BeforeEnd(w: Worker) { InLife(w) || w == Finish(FinishSave) || w == SaveDone(FromFinish, DoneTake) }

  // The guest is parked: PAUSED has been stored and not yet left.
  ghost predicate Parked(w: Worker) {
    match w
    case Serve(_, site, _) => site == FromPark
    case SaveState(site, _) => site == FromPark
    case SaveDone(site, _) => site != FromFinish
    case Settle(at) => at == SettleResetDone || at == SettleReadyCheck || at == SettleUnpark || at == SettleLoadSignal
    case Park(at) => at != ParkAdmit
    case _ => false
  }

  // PAUSED and RUNNING are stored only around a run; a guest that runs on for a save stays PAUSED.
  ghost predicate LifeZone(s: System) {
    && (Alive(s.life) ==> InLife(s.worker))
    && (s.worker.Finish? ==> !Alive(s.terminal) || s.worker == Finish(FinishSave))
    && (Parked(s.worker) ==> s.life == Paused)
    && (SaveContinuing in s.on ==> s.life != Running)
  }

  // The worker decides whether to park.
  ghost predicate Pausing(w: Worker) {
    w.Settle? && (w.settle == SettlePauseCheck || w.settle == SettleStopCheck || w.settle == SettleClose
      || w.settle == SettleStopCheck2 || w.settle == SettlePaused)
  }

  // The worker has consumed the command event in the paused wait and is heading for the save.
  ghost predicate OnWay(w: Worker) {
    match w
    case Serve(_, site, _) => site == FromPark
    case SaveState(site, _) => site == FromPark
    case SaveDone(_, at) => at == DoneTake
    case Park(at) => at == ParkSaveCheck || at == ParkReadyCheck
    case _ => false
  }

  // Parked with no captured image to hand over.
  ghost predicate Unready(w: Worker) {
    match w
    case Serve(_, site, _) => site == FromPark
    case SaveState(site, at) => site == FromPark && (at == SaveLock || at == SaveCheck)
    case Settle(at) => at == SettleUnpark || at == SettleLoadSignal
    case Park(at) => at != ParkSaveCheck && at != ParkReadyCheck
    case _ => false
  }

  ghost predicate Storing(c: Caller) { c == Submit(Save, SubmitReset) || c == Submit(Save, SubmitStore) }

  // A save is stored only while a run can still end it, and the two marks of its progress belong
  // to a stored save.
  ghost predicate SaveMarks(s: System) {
    && (SaveRequested in s.tickets || Storing(s.caller) ==> BeforeEnd(s.worker))
    && (SaveContinuing in s.on ==> SaveRequested in s.tickets && !s.worker.SaveDone?)
    && (SaveCaptured in s.on ==>
          SaveRequested in s.tickets
          || (s.worker.SaveDone? && (s.worker.done == DoneDisarm || s.worker.done == DoneUnready)))
    && (s.worker.SaveState? && s.worker.save != SaveLock && s.worker.save != SaveCheck ==> SaveRequested in s.tickets)
    && (s.worker == Park(ParkReadyCheck) ==> SaveRequested in s.tickets)
  }

  // While it runs on, the guest is not parked again; while parked unready, nothing is captured.
  ghost predicate SaveZone(s: System) {
    && (SaveContinuing in s.on && Parked(s.worker) ==>
          s.worker == Park(ParkContinue) || s.worker == Park(ParkLeave)
            || (s.worker == Park(ParkPauseCheck) && PauseRequested !in s.on))
    && (SaveContinuing in s.on && Pausing(s.worker) ==> SuppressPaused !in s.on)
    && (SaveCaptured in s.on ==> !Unready(s.worker))
  }

  // A stored save is announced, or taken up.
  ghost predicate SaveAnnounced(s: System) {
    SaveRequested in s.tickets ==>
      || CommandEvent in s.on || s.caller == Submit(Save, SubmitSignal) || TerminateRequested in s.on
      || SaveContinuing in s.on || SaveCaptured in s.on || OnWay(s.worker)
  }

  ghost predicate SavePath(s: System) { SaveMarks(s) && SaveZone(s) && SaveAnnounced(s) }

  ghost predicate SaveInv(s: System) { LifeZone(s) && SavePath(s) }

  // ---------- kept by every step ----------

  lemma LoopKeepsLife(s: System)
    requires LifeZone(s) && s.worker.Loop?
    ensures LifeZone(LoopStep(s))
  {
  }

  lemma LoopKeepsSave(s: System)
    requires SavePath(s) && s.worker.Loop?
    ensures SavePath(LoopStep(s))
  {
  }

  lemma LaunchKeepsLife(s: System, choice: nat)
    requires SaveInv(s) && LockInv(s) && s.worker.Launch?
    ensures LifeZone(LaunchStep(s, choice))
  {
  }

  lemma LaunchKeepsSave(s: System, choice: nat)
    requires SavePath(s) && LockInv(s) && s.worker.Launch?
    ensures SavePath(LaunchStep(s, choice))
  {
  }

  lemma DriveKeepsLife(s: System, choice: nat)
    requires LifeZone(s) && s.worker.Drive?
    ensures LifeZone(DriveStep(s, choice))
  {
  }

  lemma DriveKeepsSave(s: System, choice: nat)
    requires SavePath(s) && s.worker.Drive?
    ensures SavePath(DriveStep(s, choice))
  {
  }

  lemma LoadStateKeeps(s: System, choice: nat)
    requires SaveInv(s) && LockInv(s) && s.worker.LoadState?
    ensures SaveInv(LoadStep(s, choice))
  {
  }

  lemma AdoptKeeps(s: System)
    requires SaveInv(s) && LockInv(s) && s.worker.Adopt?
    ensures SaveInv(AdoptStep(s))
  {
  }

  lemma WorkerColdKeeps(s: System)
    requires SaveInv(s) && LockInv(s) && s.worker.WorkerCold?
    ensures SaveInv(WorkerColdStep(s))
  {
  }

  lemma ServeKeeps(s: System)
    requires SaveInv(s) && LockInv(s) && s.worker.Serve?
    ensures SaveInv(ServeStep(s))
  {
  }

  lemma SaveStateKeepsLife(s: System, choice: nat)
    requires LifeZone(s) && s.worker.SaveState?
    ensures LifeZone(SaveStep(s, choice))
  {
  }

  lemma SaveStateKeepsSave(s: System, choice: nat)
    requires SavePath(s) && s.worker.SaveState?
    ensures SavePath(SaveStep(s, choice))
  {
  }

  lemma SaveDoneKeepsLife(s: System)
    requires LifeZone(s) && LockInv(s) && s.worker.SaveDone?
    ensures LifeZone(SaveDoneStep(s))
  {
  }

  lemma SaveDoneKeepsSave(s: System)
    requires SavePath(s) && LockInv(s) && KindInv(s, Save) && s.worker.SaveDone?
    ensures SavePath(SaveDoneStep(s))
  {
  }

  lemma ExecKeepsLife(s: System, choice: nat)
    requires LifeZone(s) && s.worker.Exec?
    ensures LifeZone(ExecStep(s, choice))
  {
  }

  lemma ExecKeepsSave(s: System, choice: nat)
    requires SavePath(s) && s.worker.Exec?
    ensures SavePath(ExecStep(s, choice))
  {
  }

  lemma SettleKeepsLife(s: System)
    requires LifeZone(s) && s.worker.Settle?
    ensures LifeZone(SettleStep(s))
  {
  }

  lemma SettleKeepsZone(s: System)
    requires SaveInv(s) && s.worker.Settle?
    ensures SaveZone(SettleStep(s))
  {
  }

  lemma SettleKeepsMarks(s: System)
    requires SavePath(s) && s.worker.Settle?
    ensures SaveMarks(SettleStep(s)) && SaveAnnounced(SettleStep(s))
  {
  }

  lemma ParkKeepsLife(s: System)
    requires SaveInv(s) && LockInv(s) && s.worker.Park?
    ensures LifeZone(ParkStep(s))
  {
  }

  lemma ParkKeepsMarks(s: System)
    requires SaveMarks(s) && SaveZone(s) && s.worker.Park?
    ensures SaveMarks(ParkStep(s))
  {
  }

  lemma ParkKeepsZone(s: System)
    requires SavePath(s) && LockInv(s) && s.worker.Park?
    ensures SaveZone(ParkStep(s)) && SaveAnnounced(ParkStep(s))
  {
  }

  lemma FinishKeeps(s: System)
    requires SaveInv(s) && LockInv(s) && s.worker.Finish?
    ensures SaveInv(FinishStep(s))
  {
  }

  lemma FlushKeepsLife(s: System)
    requires SaveInv(s) && LockInv(s) && s.worker.Flush?
    ensures LifeZone(FlushStep(s))
  {
  }

  lemma FlushKeepsSave(s: System)
    requires SaveInv(s) && LockInv(s) && s.worker.Flush?
    ensures SavePath(FlushStep(s))
  {
  }

  lemma LifecycleKeepsLife(s: System)
    requires LifeZone(s) && s.caller.Lifecycle?
    ensures LifeZone(LifecycleStep(s))
  {
  }

  lemma LifecycleKeepsSave(s: System)
    requires SavePath(s) && KindInv(s, Save) && s.caller.Lifecycle?
    ensures SavePath(LifecycleStep(s))
  {
  }

  lemma CallerColdKeepsLife(s: System)
    requires SaveInv(s) && LifeInv(s) && KindInv(s, Save) && s.caller.CallerCold?
    ensures LifeZone(CallerColdStep(s))
  {
  }

  lemma CallerColdKeepsSave(s: System)
    requires SaveInv(s) && LifeInv(s) && KindInv(s, Save) && s.caller.CallerCold?
    ensures SavePath(CallerColdStep(s))
  {
  }

  lemma SubmitKeeps(s: System)
    requires SaveInv(s) && LockInv(s) && s.caller.Submit?
    ensures SaveInv(SubmitStep(s))
  {
  }

  lemma ClosingKeepsLife(s: System)
    requires LifeZone(s) && s.caller.Closing?
    ensures LifeZone(CloseStep(s))
  {
  }

  lemma ClosingKeepsSave(s: System)
    requires SavePath(s) && s.caller.Closing?
    ensures SavePath(CloseStep(s))
  {
  }

  lemma BeginKeeps(s: System, choice: nat)
    requires SaveInv(s) && KindInv(s, Save) && s.caller == Idle
    ensures SaveInv(CallerBegin(s, choice))
  {
  }

  lemma PassKeeps(s: System)
    requires SaveInv(s) && KindInv(s, Save) && Passing(s.caller)
    ensures SaveInv(PassStep(s))
  {
  }

  lemma WorkerKeepsSave(s: System, choice: nat)
    requires SaveInv(s) && LockInv(s) && KindInv(s, Save)
    ensures SaveInv(WorkerStep(s, choice))
  {
    match s.worker
    case Loop(_) => LoopKeepsLife(s); LoopKeepsSave(s);
    case Launch(_) => LaunchKeepsLife(s, choice); LaunchKeepsSave(s, choice);
    case Drive(_) => DriveKeepsLife(s, choice); DriveKeepsSave(s, choice);
    case LoadState(_) => LoadStateKeeps(s, choice);
    case Adopt(_) => AdoptKeeps(s);
    case WorkerCold(_) => WorkerColdKeeps(s);
    case Serve(_, _, _) => ServeKeeps(s);
    case SaveState(_, _) => SaveStateKeepsLife(s, choice); SaveStateKeepsSave(s, choice);
    case SaveDone(_, _) => SaveDoneKeepsLife(s); SaveDoneKeepsSave(s);
    case Exec(_) => ExecKeepsLife(s, choice); ExecKeepsSave(s, choice);
    case Settle(_) => SettleKeepsLife(s); SettleKeepsZone(s); SettleKeepsMarks(s);
    case Park(_) => ParkKeepsLife(s); ParkKeepsMarks(s); ParkKeepsZone(s);
    case Finish(_) => FinishKeeps(s);
    case Flush(_) => FlushKeepsLife(s); FlushKeepsSave(s);
    case Exited =>
  }

  lemma CallerKeepsSave(s: System, choice: nat)
    requires SaveInv(s) && LockInv(s) && LifeInv(s) && KindInv(s, Save)
    ensures SaveInv(CallerStep(s, choice))
  {
    match s.caller
    case Idle => BeginKeeps(s, choice);
    case CallerCold(_, _) => CallerColdKeepsLife(s); CallerColdKeepsSave(s);
    case Lifecycle(_) => LifecycleKeepsLife(s); LifecycleKeepsSave(s);
    case Submit(_, _) => SubmitKeeps(s);
    case Closing(_) => ClosingKeepsLife(s); ClosingKeepsSave(s);
    case _ => PassKeeps(s);
  }

  lemma StepKeepsSave(s: System, turn: Turn)
    requires SaveInv(s) && LockInv(s) && LifeInv(s) && KindInv(s, Save)
    ensures SaveInv(Step(s, turn))
  {
    match turn
    case CallerTurn(choice) => CallerKeepsSave(s, choice);
    case WorkerTurn(choice) => WorkerKeepsSave(s, choice);
    case InputTurn =>
    case CancelDebugTurn =>
  }

  lemma {:induction false} RunKeepsSave(turns: seq<Turn>)
    ensures SaveInv(Run(turns))
  {
    if turns != [] {
      var n := |turns| - 1;
      RunKeepsSave(turns[..n]);
      RunKeeps(turns[..n]);
      StepKeepsSave(Run(turns[..n]), turns[n]);
    }
  }

  // A save that is stored while its caller waits is never met by the main wait, and finds the
  // paused wait enabled.
  lemma SaveIsAnnounced(s: System)
    requires SaveInv(s) && DrainInv(s) && s.caller == Waiting(Save) && SaveRequested in s.tickets
    ensures s.worker != Loop(Wait) && (s.worker == Park(ParkWait) ==> CommandEvent in s.on)
  {
  }
}
