/**
 The executor rendezvous of the machine: one control caller and one worker that share
 atomics, a request lock and manual-reset events. The two programs are given as a step
 relation with one step per atomic access, per event call, or per section of the input
 and frame locks. The request lock is modelled explicitly, so a step of the other thread
 may fall between any two accesses made while it is held.
 */
module MachineModel {

  // The lifecycle value kept in the `state` atomic.
  datatype Life = Stopped | Starting | Running | Paused | Error

  // The four synchronous requests of the control caller.
  datatype Kind = Media | Debug | Save | Load

  // What an outside observer sees of the requests: acceptance (the request flag is
  // stored) and completion (the completion event is signalled).
  datatype Observation = Accepted(kind: Kind) | Completed(kind: Kind)

  datatype Owner = Free | ByCaller | ByWorker

  // An input event with its acceptance number and the run it was accepted in.
  datatype Input = Input(id: nat, run: nat)

  // An input handed to the guest, with the run it was handed to.
  datatype Delivery = Delivery(input: Input, run: nat)

  // The latest published frame, tagged with the run that published it.
  datatype Frame = NoFrame | FrameOf(run: nat)

  // begin_cold_run, executed by the caller (start, reset) or by the worker (reset).
  datatype ColdPc = ColdClose | ColdClear | ColdInvalidate | ColdPause | ColdStop | ColdLife | ColdRun | ColdStart
    | ColdSignal

  // Why a cold run is scheduled: start leaves it running, reset parks it.
  datatype Origin = ForStart | ForReset

  // Why the machine is stopped.
  datatype Purpose = ToStop | ToClose

  datatype SubmitPc = SubmitLock | SubmitTerminate | SubmitLife | SubmitReset | SubmitStore | SubmitSignal
    | SubmitUnlock

  datatype LifecyclePc =
    | PauseCheck | PauseSet
    | ResumeCheck | ResumeClear | ResumeSignal
    | StopCheck(purpose: Purpose) | StopSet(purpose: Purpose) | StopUnpause(purpose: Purpose)
    | StopSignal(purpose: Purpose)
    | ResetCheck | ResetColdActive | ResetActive | ResetSet | UndoReset

  datatype ClosePc = CloseTerminate | CloseResume | CloseCommand | CloseCancel | CloseJoin

  datatype Caller =
    | Idle
    | ColdCheck(origin: Origin)
    | CallerCold(cold: ColdPc, origin: Origin)
    | Lifecycle(lifecycle: LifecyclePc)
    | Submit(kind: Kind, at: SubmitPc)
    | SubmitRefuse
    | Waiting(kind: Kind)
    | Joining
    | Closing(close: ClosePc)

  // Where service_media, service_debug and service_state_read are called from.
  datatype Site = FromLoop | FromCallback | FromPark | FromFinish

  // The worker's loop up to the claim of a start request, and its way out.
  datatype LoopPc =
    | Wait | ResetCommand | TerminateCheck1 | TerminateCheck2 | MediaCheck | LoadCheck | TakeRestored | TakeStart
    | ExitFlag | ExitLoad

  // From a claimed start request into the driver's run.
  datatype LaunchPc = DriverReset | StopCheck1 | EnterRunning | AdmitLoad | AdmitOpen | AdmitClosed

  // The driver's run and what follows it.
  datatype DrivePc = InDriver | RunStopCheck | RunTerminateCheck | RunClose | ErrorCheck | ResetTake | ResetStop

  datatype ServePc = ServeLock | ServeTake | ServeDrive | ServeSignal

  // service_state_write, and its tail after the driver has accepted the image.
  datatype LoadPc = LoadLock | LoadTake | LoadDrive | LoadFailed

  datatype AdoptPc =
    | AdoptClear | AdoptInvalidate | AdoptPause | AdoptStop | AdoptLife | AdoptRun | AdoptRestored | AdoptPark
    | AdoptStart | AdoptSignal

  datatype SavePc = SaveLock | SaveCheck | SaveArm | SaveBegin | SaveAgain | SaveFailed | SavePoll | SaveReady
    | SaveReadyCheck | SavePause

  datatype SaveDonePc = DoneTake | DoneDisarm | DoneUnready | DoneSignal

  // The executor callback up to its frame, and from there to the paused wait.
  datatype ExecPc =
    | ExecBegin | ExecDebugStop | ExecPauseCheck | ExecStopCheck | ExecClose | ExecLifeCheck | ExecDrain
    | ExecPublish | ExecStamp | ExecErrorClose | ExecErrorLife | ExecErrorReset | ExecErrorStop

  datatype SettlePc =
    | SettleContinuing | SettlePauseCheck | SettleStopCheck | SettleClose | SettleStopCheck2 | SettlePaused
    | SettleResetDone | SettleReadyCheck | SettleUnpark | SettleLoadSignal

  datatype ParkPc =
    | ParkPauseCheck | ParkStopCheck | ParkWait | ParkResetResume | ParkResetCommand
    | ParkSaveCheck | ParkReadyCheck | ParkContinue
    | ParkCancelReset | ParkCancelStop
    | ParkLeave | ParkEnterRunning | ParkAdmit

  // finish_requests: storing the outcome and ending a state read, then flushing the other requests.
  datatype FinishPc = FinishClose | FinishLock | FinishLoad | FinishStore | FinishSave

  datatype FlushPc =
    | FlushLoad | FlushLoadTaken | FlushLoadWaiting | FlushLoadSignal
    | FlushDebug | FlushDebugSignal | FlushMedia | FlushMediaSignal | FlushUnlock

  datatype Worker =
    | Loop(loop: LoopPc)
    | Launch(launch: LaunchPc)
    | Drive(drive: DrivePc)
    | Serve(what: Kind, site: Site, serve: ServePc)
    | LoadState(load: LoadPc)
    | Adopt(adopt: AdoptPc)
    | SaveState(site: Site, save: SavePc)
    | SaveDone(site: Site, done: SaveDonePc)
    | Exec(exec: ExecPc)
    | Settle(settle: SettlePc)
    | Park(park: ParkPc)
    | Finish(finish: FinishPc)
    | Flush(flush: FlushPc)
    | WorkerCold(cold: ColdPc)
    | Exited

  // What the worker does after finish_requests returns.
  datatype After = BackToLoop | RestartCold | LeaveThread

  // The request flags, the parked load, and the completion events.
  datatype Ticket =
    | MediaRequested | DebugRequested | SaveRequested | LoadRequested | LoadWaiting
    | MediaEvent | DebugEvent | StateEvent

  // The other atomics and private variables that hold a truth value, and the other events.
  datatype Flag =
    | TerminateRequested | StopRequested | PauseRequested | StartRequested | ResetRequested | ResetInProgress
    | SaveArmed | SaveCaptured | RestoredStart
    | CommandEvent | ResumeEvent | TaskCancelled
    | Accepting                                             // the admission flag of the input queue
    | Joined                                                // the caller has joined the worker
    | Succeeded | Restored | SaveContinuing | SuppressPaused  // private to the worker

  // The flags that are set and the events that are signalled are the members of two sets.
  datatype System = System(
    life: Life,
    tickets: set<Ticket>,
    on: set<Flag>,
    lock: Owner,
    queue: seq<Input>, nextInput: nat, delivered: seq<Delivery>,
    run: nat, frame: Frame, frameRun: nat,
    log: seq<Observation>,
    caller: Caller,
    worker: Worker, after: After, terminal: Life)

  const INITIAL := System(Stopped, {}, {}, Free, [], 0, [], 0, NoFrame, 0, [], Idle, Loop(Wait), BackToLoop, Stopped)

  function Put(on: set<Flag>, f: Flag, value: bool): set<Flag> {
    if value then on + {f} else on - {f}
  }

  // ---------- shared fragments ----------

  // The request flag of a kind.
  function RequestOf(k: Kind): Ticket {
    match k
    case Media => MediaRequested
    case Debug => DebugRequested
    case Save => SaveRequested
    case Load => LoadRequested
  }

  // The completion event of a kind; the two state requests share one event.
  function EventOf(k: Kind): Ticket {
    match k
    case Media => MediaEvent
    case Debug => DebugEvent
    case Save => StateEvent
    case Load => StateEvent
  }

  // complete_request: signal the completion event of a request.
  function Complete(s: System, k: Kind): System {
    s.(tickets := s.tickets + {EventOf(k)}, log := s.log + [Completed(k)])
  }

  // The lifecycle values at which a request of a kind is admitted.
  predicate Admitted(k: Kind, life: Life) {
    match k
    case Media => life == Stopped || life == Paused
    case Debug => life == Paused
    case Save => life == Running || life == Paused
    case Load => life == Stopped
  }

  // One access of begin_cold_run.
  function ColdEffect(s: System, at: ColdPc, origin: Origin): System {
    match at
    case ColdClose => s.(on := s.on - {Accepting})
    case ColdClear => s.(queue := [])
    case ColdInvalidate => s.(frame := NoFrame, frameRun := 0)
    case ColdPause => s.(on := Put(s.on, PauseRequested, origin == ForReset))
    case ColdStop => s.(on := s.on - {StopRequested})
    case ColdLife => s.(life := Starting)
    case ColdRun => s.(run := s.run + 1)
    case ColdStart => s.(on := s.on + {StartRequested})
    case ColdSignal => s.(on := s.on + {CommandEvent})
  }

  function ColdNext(at: ColdPc): ColdPc {
    match at
    case ColdClose => ColdClear
    case ColdClear => ColdInvalidate
    case ColdInvalidate => ColdPause
    case ColdPause => ColdStop
    case ColdStop => ColdLife
    case ColdLife => ColdRun
    case ColdRun => ColdStart
    case ColdStart => ColdSignal
    case ColdSignal => ColdSignal
  }

  // ---------- the control caller ----------

  // A public entry point is called; the turn says which.
  function CallerBegin(s: System, choice: nat): System {
    if choice == 0 then s.(caller := ColdCheck(ForStart))
    else if choice == 1 then s.(caller := Lifecycle(PauseCheck))
    else if choice == 2 then s.(caller := Lifecycle(ResumeCheck))
    else if choice == 3 then s.(caller := Lifecycle(StopCheck(ToStop)))
    else if choice == 4 then s.(caller := Lifecycle(ResetCheck))
    else if choice == 5 then s.(caller := Submit(Media, SubmitLock))
    else if choice == 6 then s.(caller := Submit(Debug, SubmitLock))
    else if choice == 7 then s.(caller := Submit(Save, SubmitLock))
    else if choice == 8 then s.(caller := Submit(Load, SubmitLock))
    else if Joined in s.on then s else s.(caller := Lifecycle(StopCheck(ToClose)))
  }

  function AfterStop(purpose: Purpose): Caller {
    if purpose == ToClose then Closing(CloseTerminate) else Idle
  }

  // pause, resume, stop and the requesting half of reset.
  function LifecycleStep(s: System): System
    requires s.caller.Lifecycle?
  {
    match s.caller.lifecycle
    case PauseCheck => s.(caller := if s.life == Running then Lifecycle(PauseSet) else Idle)
    case PauseSet => s.(on := s.on + {PauseRequested}, caller := Idle)
    case ResumeCheck => s.(caller := if s.life == Paused then Lifecycle(ResumeClear) else Idle)
    case ResumeClear => s.(on := s.on - {PauseRequested}, caller := Lifecycle(ResumeSignal))
    case ResumeSignal => s.(on := s.on + {ResumeEvent}, caller := Idle)
    case StopCheck(purpose) =>
      s.(caller := if s.life == Stopped || s.life == Error then AfterStop(purpose) else Lifecycle(StopSet(purpose)))
    case StopSet(purpose) => s.(on := s.on + {StopRequested}, caller := Lifecycle(StopUnpause(purpose)))
    case StopUnpause(purpose) => s.(on := s.on - {PauseRequested}, caller := Lifecycle(StopSignal(purpose)))
    case StopSignal(purpose) => s.(on := s.on + {ResumeEvent}, caller := AfterStop(purpose))
    case ResetCheck =>
      s.(caller := if s.life == Stopped then Lifecycle(ResetColdActive)
                   else if s.life == Running || s.life == Paused then Lifecycle(ResetActive) else Idle)
    case ResetColdActive => s.(on := s.on + {ResetInProgress}, caller := ColdCheck(ForReset))
    case ResetActive => s.(on := s.on + {ResetInProgress}, caller := Lifecycle(ResetSet))
    case ResetSet => s.(on := s.on + {ResetRequested}, caller := Lifecycle(StopSet(ToStop)))
    case UndoReset => s.(on := s.on - {ResetInProgress}, caller := Idle)
  }

  // shutdown, after its stop.
  function CloseStep(s: System): System
    requires s.caller.Closing?
  {
    match s.caller.close
    case CloseTerminate => s.(on := s.on + {TerminateRequested}, caller := Closing(CloseResume))
    case CloseResume => s.(on := s.on + {ResumeEvent}, caller := Closing(CloseCommand))
    case CloseCommand => s.(on := s.on + {CommandEvent}, caller := Closing(CloseCancel))
    case CloseCancel => s.(on := s.on + {TaskCancelled}, caller := Closing(CloseJoin))
    case CloseJoin => if s.worker == Exited then s.(on := s.on + {Joined}, caller := Idle) else s
  }

  // submit_request.
  function SubmitStep(s: System): System
    requires s.caller.Submit?
  {
    var k := s.caller.kind;
    match s.caller.at
    case SubmitLock => if s.lock != Free then s else s.(lock := ByCaller, caller := Submit(k, SubmitTerminate))
    case SubmitTerminate => s.(caller := if TerminateRequested in s.on then SubmitRefuse else Submit(k, SubmitLife))
    case SubmitLife => s.(caller := if Admitted(k, s.life) then Submit(k, SubmitReset) else SubmitRefuse)
    case SubmitReset => s.(tickets := s.tickets - {EventOf(k)}, caller := Submit(k, SubmitStore))
    case SubmitStore =>
      s.(tickets := s.tickets + {RequestOf(k)}, log := s.log + [Accepted(k)], caller := Submit(k, SubmitSignal))
    case SubmitSignal => s.(on := s.on + {CommandEvent}, caller := Submit(k, SubmitUnlock))
    case SubmitUnlock => s.(lock := Free, caller := Waiting(k))
  }

  // The worker is inside the section of the frame lock that publishes a frame. The run number it
  // is stamped with there is read from an atomic that this lock does not protect.
  predicate FrameLocked(w: Worker) { w == Exec(ExecStamp) }

  // begin_cold_run on the caller.
  function CallerColdStep(s: System): System
    requires s.caller.CallerCold?
  {
    var at, origin := s.caller.cold, s.caller.origin;
    if at == ColdInvalidate && FrameLocked(s.worker) then s
    else ColdEffect(s, at, origin).(caller := if at == ColdSignal then Idle else CallerCold(ColdNext(at), origin))
  }

  // The steps between the entry points: the check of STOPPED, a refusal, and the two waits.
  function PassStep(s: System): System {
    match s.caller
    case ColdCheck(origin) =>
      s.(caller := if Joined !in s.on && s.life == Stopped then CallerCold(ColdClose, origin)
                   else if origin == ForReset then Lifecycle(UndoReset) else Idle)
    case SubmitRefuse => s.(lock := Free, caller := Idle)
    case Waiting(k) =>
      if TaskCancelled in s.on then s.(caller := Joining) else if EventOf(k) in s.tickets then s.(caller := Idle) else s
    case Joining => if s.worker == Exited then s.(caller := Idle) else s
    case _ => s
  }

  function CallerStep(s: System, choice: nat): System {
    match s.caller
    case Idle => CallerBegin(s, choice)
    case CallerCold(_, _) => CallerColdStep(s)
    case Lifecycle(_) => LifecycleStep(s)
    case Submit(_, _) => SubmitStep(s)
    case Closing(_) => CloseStep(s)
    case _ => PassStep(s)
  }

  // ---------- the worker ----------

  function EnterFinish(s: System, terminal: Life, after: After): System {
    s.(worker := Finish(FinishClose), terminal := terminal, after := after)
  }

  // The loop of emulator_machine_worker.
  function LoopStep(s: System): System
    requires s.worker.Loop?
  {
    match s.worker.loop
    case Wait =>
      if TaskCancelled in s.on then s.(worker := Loop(ExitFlag))
        else if CommandEvent in s.on then s.(worker := Loop(ResetCommand)) else s
    case ResetCommand => s.(on := s.on - {CommandEvent}, worker := Loop(TerminateCheck1))
    case TerminateCheck1 =>
      s.(worker := if TerminateRequested in s.on then Loop(ExitFlag) else Serve(Debug, FromLoop, ServeLock))
    case TerminateCheck2 => s.(worker := if TerminateRequested in s.on then Loop(ExitFlag) else Loop(MediaCheck))
    case MediaCheck =>
      s.(worker := if MediaRequested in s.tickets then Serve(Media, FromLoop, ServeLock) else Loop(LoadCheck))
    case LoadCheck => s.(worker := if LoadRequested in s.tickets then LoadState(LoadLock) else Loop(TakeRestored))
    case TakeRestored =>
      s.(on := Put(s.on, Restored, RestoredStart in s.on) - {RestoredStart}, worker := Loop(TakeStart))
    case TakeStart =>
      s.(on := s.on - {StartRequested}, worker := if StartRequested in s.on then Launch(DriverReset) else Loop(Wait))
    case ExitFlag => s.(on := s.on + {TerminateRequested}, worker := Loop(ExitLoad))
    case ExitLoad => EnterFinish(s, s.life, LeaveThread)
  }

  function LaunchStep(s: System, choice: nat): System
    requires s.worker.Launch?
  {
    match s.worker.launch
    case DriverReset =>  // a restored image needs no driver reset; the driver may fail its own
      if Restored in s.on || choice == 0 then s.(worker := Launch(StopCheck1)) else EnterFinish(s, Error, BackToLoop)
    case StopCheck1 =>
      if StopRequested in s.on then EnterFinish(s, Stopped, BackToLoop) else s.(worker := Launch(EnterRunning))
    case EnterRunning =>
      if s.life == Starting then s.(life := Running, worker := Launch(AdmitLoad)) else s.(worker := Loop(ExitFlag))
    case AdmitLoad => s.(worker := Launch(if PauseRequested in s.on then AdmitClosed else AdmitOpen))
    case AdmitOpen => s.(on := s.on + {Accepting}, worker := Drive(InDriver))
    case AdmitClosed => s.(on := s.on - {Accepting}, worker := Drive(InDriver))
  }

  function DriveStep(s: System, choice: nat): System
    requires s.worker.Drive?
  {
    match s.worker.drive
    case InDriver =>  // driver.run: callbacks, then a result
      if choice == 0 then s.(worker := Exec(ExecBegin))
      else if choice == 1 then s.(on := s.on + {Succeeded}, worker := Drive(RunStopCheck))
      else s.(on := s.on - {Succeeded}, worker := Drive(RunClose))
    case RunStopCheck => s.(worker := if StopRequested in s.on then Drive(RunClose) else Drive(RunTerminateCheck))
    case RunTerminateCheck => s.(worker := if TerminateRequested in s.on then Drive(RunClose) else Drive(InDriver))
    case RunClose => s.(on := s.on - {Accepting}, worker := Drive(ErrorCheck))
    case ErrorCheck =>
      if Succeeded in s.on && s.life != Error then s.(worker := Drive(ResetTake))
      else EnterFinish(s.(on := s.on - {Succeeded}), Error, BackToLoop)
    case ResetTake =>
      if ResetRequested in s.on then EnterFinish(s.(on := s.on - {ResetRequested}), Starting, RestartCold)
        else EnterFinish(s, Stopped, BackToLoop)
    case ResetStop => s.(on := s.on - {StopRequested}, worker := WorkerCold(ColdClose))
  }

  // Where the worker continues after service_media or service_debug.
  function AfterServe(what: Kind, site: Site): Worker {
    if site == FromPark then (if what == Media then Serve(Debug, FromPark, ServeLock)
      else SaveState(FromPark, SaveLock))
    else if what == Media then Loop(Wait) else Loop(TerminateCheck2)
  }

  // service_media and service_debug, with take_request inside.
  function ServeStep(s: System): System
    requires s.worker.Serve?
  {
    var k, site := s.worker.what, s.worker.site;
    match s.worker.serve
    case ServeLock => if s.lock != Free then s else s.(lock := ByWorker, worker := Serve(k, site, ServeTake))
    case ServeTake =>
      if TerminateRequested !in s.on && RequestOf(k) in s.tickets
      then s.(tickets := s.tickets - {RequestOf(k)}, lock := Free, worker := Serve(k, site, ServeDrive))
      else s.(lock := Free, worker := AfterServe(k, site))
    case ServeDrive => s.(worker := Serve(k, site, ServeSignal))
    case ServeSignal => Complete(s, k).(worker := AfterServe(k, site))
  }

  // service_state_write.
  function LoadStep(s: System, choice: nat): System
    requires s.worker.LoadState?
  {
    match s.worker.load
    case LoadLock => if s.lock != Free then s else s.(lock := ByWorker, worker := LoadState(LoadTake))
    case LoadTake =>
      if TerminateRequested !in s.on && LoadRequested in s.tickets
      then s.(tickets := s.tickets - {LoadRequested}, lock := Free, worker := LoadState(LoadDrive))
      else s.(lock := Free, worker := Loop(Wait))
    case LoadDrive => s.(worker := if choice == 0 then Adopt(AdoptClear) else LoadState(LoadFailed))
    case LoadFailed => Complete(s, Load).(worker := Loop(Wait))
  }

  function AdoptStep(s: System): System
    requires s.worker.Adopt?
  {
    match s.worker.adopt
    case AdoptClear => s.(queue := [], worker := Adopt(AdoptInvalidate))
    case AdoptInvalidate => s.(frame := NoFrame, frameRun := 0, worker := Adopt(AdoptPause))
    case AdoptPause => s.(on := s.on + {PauseRequested}, worker := Adopt(AdoptStop))
    case AdoptStop => s.(on := s.on - {StopRequested}, worker := Adopt(AdoptLife))
    case AdoptLife => s.(life := Starting, worker := Adopt(AdoptRun))
    case AdoptRun => s.(run := s.run + 1, worker := Adopt(AdoptRestored))
    case AdoptRestored => s.(on := s.on + {RestoredStart}, worker := Adopt(AdoptPark))
    case AdoptPark => s.(tickets := s.tickets + {LoadWaiting}, worker := Adopt(AdoptStart))
    case AdoptStart => s.(on := s.on + {StartRequested}, worker := Adopt(AdoptSignal))
    case AdoptSignal => s.(on := s.on + {CommandEvent}, worker := Loop(Wait))
  }

  function AfterSave(site: Site): Worker {
    if site == FromPark then Park(ParkSaveCheck) else Exec(ExecPauseCheck)
  }

  // service_state_read.
  function SaveStep(s: System, choice: nat): System
    requires s.worker.SaveState?
  {
    var site := s.worker.site;
    match s.worker.save
    case SaveLock => if s.lock != Free then s else s.(lock := ByWorker, worker := SaveState(site, SaveCheck))
    case SaveCheck =>
      if TerminateRequested in s.on || SaveRequested !in s.tickets then s.(lock := Free, worker := AfterSave(site))
      else s.(worker := SaveState(site, SaveArm))
    case SaveArm =>
      s.(on := s.on + {SaveArmed}, lock := Free,
         worker := SaveState(site, if SaveArmed in s.on then SaveAgain else SaveBegin))
    case SaveBegin => s.(worker := SaveState(site, if choice == 0 then SavePoll else SaveFailed))
    case SaveAgain => s.(worker := SaveState(site, SavePoll))
    case SaveFailed => s.(on := s.on + {SaveCaptured}, worker := SaveState(site, SavePoll))
    case SavePoll =>
      s.(worker := SaveState(site, if SaveCaptured !in s.on && choice == 0 then SaveReady else SaveReadyCheck))
    case SaveReady => s.(on := s.on + {SaveCaptured}, worker := SaveState(site, SaveReadyCheck))
    case SaveReadyCheck => s.(worker := if SaveCaptured in s.on then SaveState(site, SavePause) else AfterSave(site))
    case SavePause => s.(on := s.on + {PauseRequested}, worker := AfterSave(site))
  }

  function AfterSaveDone(site: Site): Worker {
    match site
    case FromFinish => Flush(FlushLoad)
    case FromPark => Park(ParkPauseCheck)
    case _ => Settle(SettleUnpark)
  }

  // complete_state_read.
  function SaveDoneStep(s: System): System
    requires s.worker.SaveDone?
  {
    var site := s.worker.site;
    match s.worker.done
    case DoneTake =>
      s.(tickets := s.tickets - {SaveRequested}, worker := if SaveRequested in s.tickets then SaveDone(site, DoneDisarm)
        else AfterSaveDone(site))
    case DoneDisarm => s.(on := s.on - {SaveArmed}, worker := SaveDone(site, DoneUnready))
    case DoneUnready => s.(on := s.on - {SaveCaptured}, worker := SaveDone(site, DoneSignal))
    case DoneSignal => Complete(s, Save).(worker := AfterSaveDone(site))
  }

  // executor_event up to the paused wait. Returning from it is returning to the driver.
  function ExecStep(s: System, choice: nat): System
    requires s.worker.Exec?
  {
    match s.worker.exec
    case ExecBegin =>
      s.(on := s.on - {SuppressPaused}, worker := if choice == 0 then SaveState(FromCallback, SaveLock)
        else Exec(ExecDebugStop))
    case ExecDebugStop => s.(on := s.on + {PauseRequested}, worker := SaveState(FromCallback, SaveLock))
    case ExecPauseCheck => s.(worker := if PauseRequested in s.on then Exec(ExecClose) else Exec(ExecStopCheck))
    case ExecStopCheck => s.(worker := if StopRequested in s.on then Exec(ExecClose) else Exec(ExecLifeCheck))
    case ExecClose => s.(on := s.on - {Accepting}, worker := Exec(ExecPublish))
    case ExecLifeCheck => s.(worker := if s.life == Running then Exec(ExecDrain) else Exec(ExecPublish))
    case ExecDrain =>
      if s.queue == [] then s.(worker := Exec(ExecPublish))
      else s.(queue := s.queue[1..], delivered := s.delivered + [Delivery(s.queue[0], s.run)],
        worker := Exec(ExecPublish))
    case ExecPublish =>  // copy_frame: a failure, no new frame, or a publication, with the frame lock taken
      if choice == 0 then s.(worker := Exec(ExecErrorClose))
      else if choice == 1 then s.(worker := Settle(SettleContinuing))
      else s.(frame := FrameOf(s.run), worker := Exec(ExecStamp))
    case ExecStamp => s.(frameRun := s.run, worker := Settle(SettleContinuing))
    case ExecErrorClose => s.(on := s.on - {Accepting}, worker := Exec(ExecErrorLife))
    case ExecErrorLife => s.(life := Error, worker := Exec(ExecErrorReset))
    case ExecErrorReset => s.(on := s.on - {ResetRequested}, worker := Exec(ExecErrorStop))
    case ExecErrorStop => s.(on := s.on + {StopRequested}, worker := Drive(InDriver))
  }

  // executor_event from its frame to the paused wait.
  function SettleStep(s: System): System
    requires s.worker.Settle?
  {
    match s.worker.settle
    case SettleContinuing =>
      s.(on := Put(Put(s.on, SuppressPaused, SaveContinuing in s.on && SaveCaptured in s.on),
                   SaveContinuing, SaveContinuing in s.on && SaveCaptured !in s.on),
         worker := Settle(SettlePauseCheck))
    case SettlePauseCheck => s.(worker := if PauseRequested in s.on then Settle(SettleStopCheck) else Drive(InDriver))
    case SettleStopCheck => s.(worker := if StopRequested in s.on then Drive(InDriver) else Settle(SettleClose))
    case SettleClose => s.(on := s.on - {Accepting}, worker := Settle(SettleStopCheck2))
    case SettleStopCheck2 => s.(worker := if StopRequested in s.on then Drive(InDriver) else Settle(SettlePaused))
    case SettlePaused =>
      if s.life == (if SuppressPaused in s.on then Paused else Running)
      then s.(life := Paused, worker := Settle(SettleResetDone))
      else s.(worker := Drive(InDriver))
    case SettleResetDone => s.(on := s.on - {ResetInProgress}, worker := Settle(SettleReadyCheck))
    case SettleReadyCheck =>
      s.(worker := if SaveCaptured in s.on then SaveDone(FromCallback, DoneTake) else Settle(SettleUnpark))
    case SettleUnpark =>
      s.(tickets := s.tickets - {LoadWaiting}, worker := if LoadWaiting in s.tickets then Settle(SettleLoadSignal)
        else Park(ParkPauseCheck))
    case SettleLoadSignal => Complete(s, Load).(worker := Park(ParkPauseCheck))
  }

  // The paused wait of executor_event.
  function ParkStep(s: System): System
    requires s.worker.Park?
  {
    match s.worker.park
    case ParkPauseCheck => s.(worker := if PauseRequested in s.on then Park(ParkStopCheck) else Park(ParkLeave))
    case ParkStopCheck => s.(worker := if StopRequested in s.on then Park(ParkLeave) else Park(ParkWait))
    case ParkWait =>
      if TaskCancelled in s.on then s.(worker := Park(ParkCancelReset))
      else if ResumeEvent in s.on then s.(worker := Park(ParkResetResume))
      else if CommandEvent in s.on then s.(worker := Park(ParkResetCommand)) else s
    case ParkResetResume => s.(on := s.on - {ResumeEvent}, worker := Park(ParkPauseCheck))
    case ParkResetCommand => s.(on := s.on - {CommandEvent}, worker := Serve(Media, FromPark, ServeLock))
    case ParkSaveCheck =>
      s.(worker := if SaveRequested in s.tickets then Park(ParkReadyCheck) else Park(ParkPauseCheck))
    case ParkReadyCheck =>
      if SaveCaptured in s.on then s.(worker := SaveDone(FromPark, DoneTake))
      else s.(on := s.on + {SaveContinuing}, worker := Park(ParkContinue))
    case ParkContinue => s.(on := s.on - {PauseRequested}, worker := Park(ParkPauseCheck))
    case ParkCancelReset => s.(on := s.on - {ResetRequested}, worker := Park(ParkCancelStop))
    case ParkCancelStop => s.(on := s.on + {StopRequested}, worker := Park(ParkLeave))
    case ParkLeave =>
      s.(worker := if StopRequested in s.on || SaveContinuing in s.on then Drive(InDriver) else Park(ParkEnterRunning))
    case ParkEnterRunning =>
      if s.life == Paused then s.(life := Running, worker := Park(ParkAdmit)) else s.(worker := Drive(InDriver))
    case ParkAdmit => s.(on := s.on + {Accepting}, worker := Drive(InDriver))
  }

  function AfterFinish(after: After): Worker {
    match after
    case BackToLoop => Loop(Wait)
    case RestartCold => Drive(ResetStop)
    case LeaveThread => Exited
  }

  // finish_requests.
  function FinishStep(s: System): System
    requires s.worker.Finish?
  {
    match s.worker.finish
    case FinishClose => s.(on := s.on - {Accepting}, worker := Finish(FinishLock))
    case FinishLock => if s.lock != Free then s else s.(lock := ByWorker, worker := Finish(FinishLoad))
    case FinishLoad => s.(terminal := if s.life == Error then Error else s.terminal, worker := Finish(FinishStore))
    case FinishStore => s.(life := s.terminal, worker := Finish(FinishSave))
    case FinishSave =>
      if SaveRequested in s.tickets then s.(on := s.on - {SaveContinuing}, worker := SaveDone(FromFinish, DoneTake))
      else s.(worker := Flush(FlushLoad))
  }

  function FlushStep(s: System): System
    requires s.worker.Flush?
  {
    match s.worker.flush
    case FlushLoad =>
      s.(tickets := s.tickets - {LoadRequested},
         worker := Flush(if LoadRequested in s.tickets then FlushLoadTaken else FlushLoadWaiting))
    case FlushLoadTaken => s.(tickets := s.tickets - {LoadWaiting}, worker := Flush(FlushLoadSignal))
    case FlushLoadWaiting =>
      s.(tickets := s.tickets - {LoadWaiting},
         worker := Flush(if LoadWaiting in s.tickets then FlushLoadSignal else FlushDebug))
    case FlushLoadSignal => Complete(s, Load).(worker := Flush(FlushDebug))
    case FlushDebug =>
      s.(tickets := s.tickets - {DebugRequested}, worker := if DebugRequested in s.tickets then Flush(FlushDebugSignal)
        else Flush(FlushMedia))
    case FlushDebugSignal => Complete(s, Debug).(worker := Flush(FlushMedia))
    case FlushMedia =>
      s.(tickets := s.tickets - {MediaRequested}, worker := if MediaRequested in s.tickets then Flush(FlushMediaSignal)
        else Flush(FlushUnlock))
    case FlushMediaSignal => Complete(s, Media).(worker := Flush(FlushUnlock))
    case FlushUnlock => s.(lock := Free, worker := AfterFinish(s.after))
  }

  // begin_cold_run after a reset, on the worker.
  function WorkerColdStep(s: System): System
    requires s.worker.WorkerCold?
  {
    var at := s.worker.cold;
    ColdEffect(s, at, ForReset).(worker := if at == ColdSignal then Loop(Wait) else WorkerCold(ColdNext(at)))
  }

  function WorkerStep(s: System, choice: nat): System {
    match s.worker
    case Loop(_) => LoopStep(s)
    case Launch(_) => LaunchStep(s, choice)
    case Drive(_) => DriveStep(s, choice)
    case Serve(_, _, _) => ServeStep(s)
    case LoadState(_) => LoadStep(s, choice)
    case Adopt(_) => AdoptStep(s)
    case SaveState(_, _) => SaveStep(s, choice)
    case SaveDone(_, _) => SaveDoneStep(s)
    case Exec(_) => ExecStep(s, choice)
    case Settle(_) => SettleStep(s)
    case Park(_) => ParkStep(s)
    case Finish(_) => FinishStep(s)
    case Flush(_) => FlushStep(s)
    case WorkerCold(_) => WorkerColdStep(s)
    case Exited => s
  }

  // ---------- everybody else ----------

  const QUEUE_LIMIT := 255

  // enqueue_input, from any thread.
  function OfferInput(s: System): System {
    if Accepting in s.on && |s.queue| < QUEUE_LIMIT
    then s.(queue := s.queue + [Input(s.nextInput, s.run)], nextInput := s.nextInput + 1)
    else s
  }

  // debug_cancel, from any thread: a command wake with no request behind it.
  function CancelDebug(s: System): System {
    s.(on := s.on + {CommandEvent})
  }

  // ---------- schedules ----------

  // Who moves next. The number decides what the environment does in that step: which entry
  // point the caller calls, or what the driver answers. A thread that is blocked stays put.
  datatype Turn = CallerTurn(choice: nat) | WorkerTurn(choice: nat) | InputTurn | CancelDebugTurn

  function Step(s: System, turn: Turn): System {
    match turn
    case CallerTurn(choice) => CallerStep(s, choice)
    case WorkerTurn(choice) => WorkerStep(s, choice)
    case InputTurn => OfferInput(s)
    case CancelDebugTurn => CancelDebug(s)
  }

  // The state after a schedule.
  function Run(turns: seq<Turn>): System {
    if turns == [] then INITIAL else Step(Run(turns[..|turns| - 1]), turns[|turns| - 1])
  }
}
