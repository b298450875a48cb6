/**
 Safety of the executor rendezvous over every schedule of the two threads: each accepted
 request is completed at most once, a caller never returns on a stale completion, no request
 outlives the worker, no wake-up is lost, and inputs and frames never cross between runs.
 */
module MachineProof {
  import opened MachineModel

  // ---------- requests ----------

  // A request is accepted and not yet completed.
  ghost predicate Outstanding(log: seq<Observation>) { log != [] && log[|log| - 1].Accepted? }

  // Acceptances and completions alternate, and a completion answers the acceptance before it.
  ghost predicate Paired(log: seq<Observation>) {
    log == [] ||
    var rest, last := log[..|log| - 1], log[|log| - 1];
    && Paired(rest)
    && (if Outstanding(rest) then last == Completed(rest[|rest| - 1].kind) else last.Accepted?)
  }

  lemma PairedGrows(log: seq<Observation>)
    ensures forall x :: Paired(log + [x]) <==>
      Paired(log) && (if Outstanding(log) then x == Completed(log[|log| - 1].kind) else x.Accepted?)
  {
    assert forall x :: (log + [x])[..|log|] == log;
  }

  // The worker has claimed a request of this kind and not yet signalled its event.
  ghost predicate Claimed(w: Worker, k: Kind) {
    match w
    case Serve(what, _, at) => what == k && (at == ServeDrive || at == ServeSignal)
    case LoadState(at) => k == Load && (at == LoadDrive || at == LoadFailed)
    case Adopt(at) => k == Load && at != AdoptStart && at != AdoptSignal
    case SaveDone(_, at) => k == Save && at != DoneTake
    case Settle(at) => k == Load && at == SettleLoadSignal
    case Flush(at) =>
      || (k == Load && (at == FlushLoadTaken || at == FlushLoadSignal))
      || (k == Debug && at == FlushDebugSignal)
      || (k == Media && at == FlushMediaSignal)
    case _ => false
  }

  // A request of this kind is somewhere: stored in its flag, parked, or claimed.
  ghost predicate Held(s: System, k: Kind) {
    RequestOf(k) in s.tickets || (k == Load && LoadWaiting in s.tickets) || Claimed(s.worker, k)
  }

  // It is in two of these places at once.
  ghost predicate HeldTwice(s: System, k: Kind) {
    || (RequestOf(k) in s.tickets && Claimed(s.worker, k))
    || (k == Load && LoadWaiting in s.tickets && (LoadRequested in s.tickets || Claimed(s.worker, Load)))
  }

  // The caller has stored its request and waits for the completion event.
  ghost predicate Awaiting(c: Caller, k: Kind) {
    c == Waiting(k) || c == Submit(k, SubmitSignal) || c == Submit(k, SubmitUnlock)
  }

  // A request of this kind is held exactly while it is outstanding, and then only once; its
  // caller awaits it with the completion event down, and finds the event up once it is done.
  ghost predicate KindInv(s: System, k: Kind) {
    && (Held(s, k) <==> s.log != [] && s.log[|s.log| - 1] == Accepted(k))
    && !HeldTwice(s, k)
    && (Held(s, k) ==> Awaiting(s.caller, k) && EventOf(k) !in s.tickets)
    && (Awaiting(s.caller, k) ==>
          s.log != [] && (s.log[|s.log| - 1] == Accepted(k)
            || (s.log[|s.log| - 1] == Completed(k) && EventOf(k) in s.tickets)))
    && (s.caller == Submit(k, SubmitStore) ==> EventOf(k) !in s.tickets)
  }

  ghost predicate RequestInv(s: System) {
    && Paired(s.log)
    && (Outstanding(s.log) ==> Awaiting(s.caller, s.log[|s.log| - 1].kind))
    && KindInv(s, Media) && KindInv(s, Debug) && KindInv(s, Save) && KindInv(s, Load)
  }

  // The caller has seen terminate == 0 and has not returned since.
  ghost predicate PastCheck(c: Caller) {
    c.Waiting? || (c.Submit? && c.at != SubmitLock && c.at != SubmitTerminate)
  }

  ghost predicate CloseInv(s: System) {
    && s.caller != Joining
    && (s.caller.Closing? && s.caller.close != CloseTerminate ==> TerminateRequested in s.on)
    && (TaskCancelled in s.on ==> TerminateRequested in s.on && !PastCheck(s.caller))
  }

  // ---------- the request lock and the end of the worker ----------

  // How many kinds of request finish_requests has already taken.
  ghost function Progress(at: FlushPc): nat {
    match at
    case FlushLoad => 1
    case FlushLoadTaken => 2
    case FlushLoadWaiting => 2
    case FlushLoadSignal => 3
    case FlushDebug => 3
    case FlushDebugSignal => 4
    case FlushMedia => 4
    case FlushMediaSignal => 5
    case FlushUnlock => 5
  }

  ghost predicate WorkerLocks(w: Worker) {
    match w
    case Serve(_, _, at) => at == ServeTake
    case LoadState(at) => at == LoadTake
    case SaveState(_, at) => at == SaveCheck || at == SaveArm
    case SaveDone(site, _) => site == FromFinish
    case Finish(at) => at != FinishClose && at != FinishLock
    case Flush(_) => true
    case _ => false
  }

  ghost predicate CallerLocks(c: Caller) {
    c == SubmitRefuse || (c.Submit? && c.at != SubmitLock)
  }

  // The worker calls each service only from the places the code has.
  ghost predicate Sited(w: Worker) {
    match w
    case Serve(what, site, _) => (what == Media || what == Debug) && (site == FromLoop || site == FromPark)
    case SaveState(site, _) => site == FromCallback || site == FromPark
    case SaveDone(site, _) => site != FromLoop
    case _ => true
  }

  // What finish_requests has already taken stays taken while it holds the lock.
  ghost predicate Drained(s: System, progress: nat) {
    && (progress >= 1 ==> SaveRequested !in s.tickets)
    && (progress >= 2 ==> LoadRequested !in s.tickets)
    && (progress >= 3 ==> LoadWaiting !in s.tickets)
    && (progress >= 4 ==> DebugRequested !in s.tickets)
    && (progress >= 5 ==> MediaRequested !in s.tickets)
  }

  ghost predicate LockInv(s: System) {
    && (s.lock == ByWorker <==> WorkerLocks(s.worker))
    && (s.lock == ByCaller <==> CallerLocks(s.caller))
    && Sited(s.worker)
  }

  // The caller has seen terminate == 0 under the lock and will store its request.
  ghost predicate AboutToStore(c: Caller) {
    c.Submit? && (c.at == SubmitLife || c.at == SubmitReset || c.at == SubmitStore)
  }

  // The worker has raised terminate on its way out.
  ghost predicate Departing(s: System) {
    match s.worker
    case Loop(at) => at == ExitLoad
    case Finish(_) => s.after == LeaveThread
    case Flush(_) => s.after == LeaveThread
    case SaveDone(site, _) => site == FromFinish && s.after == LeaveThread
    case Exited => true
    case _ => false
  }

  ghost predicate DrainInv(s: System) {
    && (s.worker.Flush? ==> Drained(s, Progress(s.worker.flush)))
    && (s.worker.SaveDone? && s.worker.site == FromFinish && s.worker.done != DoneTake ==> Drained(s, 1))
    && (Departing(s) ==> TerminateRequested in s.on)
    && (s.worker == Exited ==> Drained(s, 5) && !AboutToStore(s.caller))
    && (PastCheck(s.caller) && TerminateRequested in s.on ==> Departing(s))
  }

  // ---------- lifecycle ----------

  // What the worker is doing with respect to runs. `InRun` lasts from the switch to RUNNING
  // until input is closed; `Turning` is a run taken up but not yet in the driver, or left by
  // the driver with its outcome not yet stored.
  datatype RunPhase = Between | InRun | Turning | Restarting | LoadingEarly | LoadingLate | Leaving

  ghost function PhaseAfter(after: After): RunPhase {
    match after
    case BackToLoop => Between
    case RestartCold => Restarting
    case LeaveThread => Leaving
  }

  ghost function Phase(s: System): RunPhase {
    match s.worker
    case Loop(at) => if at == ExitFlag || at == ExitLoad then Leaving else Between
    case Launch(at) => if at == DriverReset || at == StopCheck1 || at == EnterRunning then Turning else InRun
    case Drive(at) =>
      if at == ErrorCheck || at == ResetTake then Turning else if at == ResetStop then Restarting else InRun
    case Serve(_, site, _) => if site == FromPark then InRun else Between
    case LoadState(at) => if at == LoadLock || at == LoadTake then Between else LoadingEarly
    case Adopt(at) =>
      if at == AdoptClear || at == AdoptInvalidate || at == AdoptPause || at == AdoptStop || at == AdoptLife
      then LoadingEarly else LoadingLate
    case SaveDone(site, _) => if site == FromFinish then PhaseAfter(s.after) else InRun
    case Finish(at) =>
      if at == FinishSave then PhaseAfter(s.after) else if s.after == LeaveThread then Leaving else Turning
    case Flush(_) => PhaseAfter(s.after)
    case WorkerCold(_) => Restarting
    case Exited => Leaving
    case _ => InRun
  }

  // The caller is between its check of STOPPED and the store of start_requested.
  ghost predicate Scheduling(c: Caller) { c.CallerCold? && c.cold != ColdSignal }

  ghost predicate ColdAfterLife(at: ColdPc) { at == ColdRun || at == ColdStart }

  // A load request is stored or about to be stored.
  ghost predicate LoadPending(s: System) {
    LoadRequested in s.tickets || s.caller == Submit(Load, SubmitReset) || s.caller == Submit(Load, SubmitStore)
  }

  // Nobody schedules a run or asks for a load.
  ghost predicate Settled(s: System) {
    StartRequested !in s.on && !Scheduling(s.caller) && !LoadPending(s)
  }

  ghost predicate LifeInv(s: System) {
    match Phase(s)
    case Leaving => true
    case InRun => s.life != Stopped && s.run > 0 && Settled(s)
    case Turning =>
      && s.life != Stopped && s.run > 0 && Settled(s)
      && (s.worker.Launch? ==> s.life == Starting)
      && (s.worker.Finish? && s.after == RestartCold ==> s.terminal != Stopped)
    case Restarting =>
      && s.life != Stopped && !Scheduling(s.caller) && !LoadPending(s)
      && (StartRequested in s.on ==> s.worker == WorkerCold(ColdSignal))
      && (s.worker.WorkerCold? && (ColdAfterLife(s.worker.cold) || s.worker.cold == ColdSignal) ==> s.life == Starting)
      && (s.worker.WorkerCold? && (s.worker.cold == ColdStart || s.worker.cold == ColdSignal) ==> s.run > 0)
    case Between =>
      && (StartRequested in s.on ==> s.life == Starting && s.run > 0)
      && (Scheduling(s.caller) ==>
            && StartRequested !in s.on && s.life == (if ColdAfterLife(s.caller.cold) then Starting else Stopped)
            && (s.caller.cold == ColdStart ==> s.run > 0) && LoadRequested !in s.tickets)
      && (LoadPending(s) ==> StartRequested !in s.on && s.life == Stopped)
    case LoadingEarly => StartRequested !in s.on && Awaiting(s.caller, Load)
    case LoadingLate =>
      && s.life == Starting && Awaiting(s.caller, Load)
      && (s.worker != Adopt(AdoptRun) ==> s.run > 0)
      && (StartRequested in s.on ==> s.worker == Adopt(AdoptSignal))
      && (s.worker == Adopt(AdoptStart) || s.worker == Adopt(AdoptSignal) ==> LoadWaiting in s.tickets)
  }

  // ---------- wake-ups ----------

  // The worker has consumed the command event and is on its way to look at this flag.
  ghost predicate Approaching(w: Worker, k: Kind) {
    match w
    case Loop(at) =>
      || at == TerminateCheck1
      || (k != Debug && (at == TerminateCheck2 || at == MediaCheck))
      || (k == Load && at == LoadCheck)
    case Serve(what, site, at) =>
      || (what == k && (at == ServeLock || at == ServeTake))
      || (what == Debug && site == FromLoop && k != Debug)
      || (what == Media && site == FromPark && k == Debug)
    case LoadState(at) => k == Load && (at == LoadLock || at == LoadTake)
    case _ => false
  }

  // A stored request is announced: the command event is signalled, is about to be signalled,
  // or has just been consumed by a worker heading for the flag.
  ghost predicate Announced(s: System, k: Kind) {
    RequestOf(k) in s.tickets ==>
      CommandEvent in s.on || s.caller == Submit(k, SubmitSignal) || Approaching(s.worker, k)
        || TerminateRequested in s.on
  }

  // State reads are polled by the executor callback and need no announcement.
  ghost predicate WakeInv(s: System) {
    Announced(s, Media) && Announced(s, Debug) && Announced(s, Load)
  }

  // ---------- run isolation ----------

  // Acceptance numbers ascend below a bound, so no input occurs twice.
  ghost predicate Ascending(inputs: seq<Input>, bound: nat) {
    && (forall i, j :: 0 <= i < j < |inputs| ==> inputs[i].id < inputs[j].id)
    && (forall i :: 0 <= i < |inputs| ==> inputs[i].id < bound)
  }

  ghost function Inputs(ds: seq<Delivery>): (r: seq<Input>)
    ensures |r| == |ds| && forall i :: 0 <= i < |ds| ==> r[i] == ds[i].input
  {
    seq(|ds|, i requires 0 <= i < |ds| => ds[i].input)
  }

  // The pending input, and then the frame, has been discarded and the run number not yet advanced.
  ghost predicate ClearedInput(at: ColdPc) {
    at == ColdInvalidate || at == ColdPause || at == ColdStop || at == ColdLife || at == ColdRun
  }

  ghost predicate ClearedFrame(at: ColdPc) { ClearedInput(at) && at != ColdInvalidate }

  ghost predicate AdoptCleared(at: AdoptPc) {
    at == AdoptInvalidate || at == AdoptPause || at == AdoptStop || at == AdoptLife || at == AdoptRun
  }

  // Pending inputs belong to the current run, delivered ones to the run they were delivered
  // in, and all of them are in acceptance order.
  ghost predicate Ordered(queue: seq<Input>, delivered: seq<Delivery>, run: nat, nextInput: nat) {
    && (forall i :: 0 <= i < |queue| ==> queue[i].run == run)
    && (forall i :: 0 <= i < |delivered| ==> delivered[i].input.run == delivered[i].run > 0)
    && Ascending(Inputs(delivered) + queue, nextInput)
  }

  // Input is accepted only in a run, and there is none while a run is being set up.
  ghost predicate GateInv(s: System) {
    && (Accepting in s.on ==> Phase(s) == InRun)
    && (s.caller.CallerCold? && ClearedInput(s.caller.cold) ==> s.queue == [])
    && (s.worker.WorkerCold? && ClearedInput(s.worker.cold) ==> s.queue == [])
    && (s.worker.Adopt? && AdoptCleared(s.worker.adopt) ==> s.queue == [])
  }

  ghost predicate InputInv(s: System) { Ordered(s.queue, s.delivered, s.run, s.nextInput) && GateInv(s) }

  // A step that touches no input.
  ghost predicate SameInputs(s: System, t: System) {
    t.queue == s.queue && t.delivered == s.delivered && t.run == s.run && t.nextInput == s.nextInput
  }

  ghost predicate FrameInv(s: System) {
    && (s.frame.FrameOf? ==> s.frame.run == s.run > 0)
    && (if FrameLocked(s.worker) then s.frame.FrameOf? && (s.frameRun == 0 || s.frameRun == s.run)
        else s.frameRun == if s.frame.FrameOf? then s.run else 0)
    && (s.caller.CallerCold? && ClearedFrame(s.caller.cold) ==> s.frame.NoFrame?)
    && (s.worker.WorkerCold? && ClearedFrame(s.worker.cold) ==> s.frame.NoFrame?)
    && (s.worker.Adopt? && AdoptCleared(s.worker.adopt) && s.worker.adopt != AdoptInvalidate ==> s.frame.NoFrame?)
  }

  ghost predicate GuardInv(s: System) { CloseInv(s) && FrameInv(s) }

  ghost predicate Inv(s: System) {
    RequestInv(s) && GuardInv(s) && LockInv(s) && DrainInv(s) && LifeInv(s) && WakeInv(s) && InputInv(s)
  }

  // ---------- preservation ----------

  // ---------- requests are kept ----------

  // A worker step that leaves every request where it is.
  lemma Calm(s: System, t: System)
    requires RequestInv(s)
    requires t.log == s.log && t.tickets == s.tickets && t.caller == s.caller
    requires forall k :: Claimed(s.worker, k) == Claimed(t.worker, k)
    ensures RequestInv(t)
  {
  }

  // The worker takes a stored request.
  lemma Claim(s: System, t: System, k: Kind)
    requires RequestInv(s) && RequestOf(k) in s.tickets
    requires t.log == s.log && t.tickets == s.tickets - {RequestOf(k)} && t.caller == s.caller
    requires forall j :: Claimed(t.worker, j) <==> j == k
    ensures RequestInv(t)
  {
    assert KindInv(s, k);
  }

  // The worker takes a request flag that is down: nothing moves.
  lemma ClaimNothing(s: System, t: System, x: Ticket)
    requires RequestInv(s) && x !in s.tickets
    requires t.log == s.log && t.tickets == s.tickets - {x} && t.caller == s.caller
    requires forall k :: Claimed(s.worker, k) == Claimed(t.worker, k)
    ensures RequestInv(t)
  {
    assert t.tickets == s.tickets;
    Calm(s, t);
  }

  // A load whose image the driver accepted is parked until the machine is paused, and claimed again there.
  lemma ParkLoad(s: System, t: System)
    requires RequestInv(s) && Claimed(s.worker, Load)
    requires t.log == s.log && t.tickets == s.tickets + {LoadWaiting} && t.caller == s.caller
    requires forall k :: !Claimed(t.worker, k)
    requires forall k :: Claimed(s.worker, k) ==> k == Load
    ensures RequestInv(t)
  {
  }

  lemma UnparkLoad(s: System, t: System)
    requires RequestInv(s) && LoadWaiting in s.tickets
    requires t.log == s.log && t.tickets == s.tickets - {LoadWaiting} && t.caller == s.caller
    requires forall k :: Claimed(t.worker, k) <==> k == Load
    ensures RequestInv(t)
  {
  }

  lemma CompletionOf(s: System, t: System, k: Kind, j: Kind)
    requires KindInv(s, j) && KindInv(s, k) && Claimed(s.worker, k)
    requires t.log == s.log + [Completed(k)] && t.tickets == s.tickets + {EventOf(k)} && t.caller == s.caller
      && !Claimed(t.worker, j)
    ensures KindInv(t, j)
  {
  }

  // The worker completes the request it has claimed.
  lemma Completion(s: System, t: System, k: Kind)
    requires RequestInv(s) && Claimed(s.worker, k)
    requires t.log == s.log + [Completed(k)] && t.tickets == s.tickets + {EventOf(k)} && t.caller == s.caller
    requires forall j :: !Claimed(t.worker, j)
    ensures RequestInv(t)
  {
    PairedGrows(s.log);
    assert KindInv(s, k);
    CompletionOf(s, t, k, Media); CompletionOf(s, t, k, Debug); CompletionOf(s, t, k, Save);
    CompletionOf(s, t, k, Load);
  }

  // A worker at a place where it never has a claim.
  ghost predicate Unclaiming(w: Worker) {
    w.Drive? || w.SaveState? || w.Exec? || w.Park? || w == Settle(SettleContinuing)
  }

  lemma CalmBetween(s: System, t: System)
    requires RequestInv(s) && t.log == s.log && t.tickets == s.tickets && t.caller == s.caller && Unclaiming(s.worker)
      && Unclaiming(t.worker)
    ensures RequestInv(t)
  {
    Calm(s, t);
  }

  lemma LoopIsCalm(s: System)
    requires RequestInv(s) && s.worker.Loop?
    ensures RequestInv(LoopStep(s))
  {
    Calm(s, LoopStep(s));
  }

  lemma RunIsCalm(s: System, choice: nat)
    requires RequestInv(s) && (s.worker.Launch? || s.worker.Drive?)
    ensures RequestInv(WorkerStep(s, choice))
  {
    if s.worker.Launch? { Calm(s, LaunchStep(s, choice)); } else { Calm(s, DriveStep(s, choice)); }
  }

  lemma SaveIsCalm(s: System, choice: nat)
    requires RequestInv(s) && s.worker.SaveState?
    ensures RequestInv(SaveStep(s, choice))
  {
    CalmBetween(s, SaveStep(s, choice));
  }

  lemma ExecIsCalm(s: System, choice: nat)
    requires RequestInv(s) && s.worker.Exec?
    ensures RequestInv(ExecStep(s, choice))
  {
    CalmBetween(s, ExecStep(s, choice));
  }

  lemma ParkIsCalm(s: System)
    requires RequestInv(s) && s.worker.Park?
    ensures RequestInv(ParkStep(s))
  {
    if s.worker == Park(ParkResetCommand) || s.worker == Park(ParkReadyCheck) {
      Calm(s, ParkStep(s));
    } else {
      CalmBetween(s, ParkStep(s));
    }
  }

  lemma WorkerColdIsCalm(s: System)
    requires RequestInv(s) && s.worker.WorkerCold?
    ensures RequestInv(WorkerColdStep(s))
  {
    Calm(s, WorkerColdStep(s));
  }

  lemma ServeKeepsRequests(s: System)
    requires RequestInv(s) && s.worker.Serve? && Sited(s.worker)
    ensures RequestInv(ServeStep(s))
  {
    var k, t := s.worker.what, ServeStep(s);
    match s.worker.serve
    case ServeTake =>
      if TerminateRequested !in s.on && RequestOf(k) in s.tickets { Claim(s, t, k); } else { Calm(s, t); }
    case ServeSignal => Completion(s, t, k);
    case _ => Calm(s, t);
  }

  lemma LoadKeepsRequests(s: System, choice: nat)
    requires RequestInv(s) && s.worker.LoadState?
    ensures RequestInv(LoadStep(s, choice))
  {
    var t := LoadStep(s, choice);
    match s.worker.load
    case LoadTake =>
      if TerminateRequested !in s.on && LoadRequested in s.tickets { Claim(s, t, Load); } else { Calm(s, t); }
    case LoadFailed => Completion(s, t, Load);
    case _ => Calm(s, t);
  }

  lemma AdoptKeepsRequests(s: System)
    requires RequestInv(s) && s.worker.Adopt?
    ensures RequestInv(AdoptStep(s))
  {
    if s.worker.adopt == AdoptPark { ParkLoad(s, AdoptStep(s)); } else { Calm(s, AdoptStep(s)); }
  }

  lemma SaveDoneKeepsRequests(s: System)
    requires RequestInv(s) && s.worker.SaveDone?
    ensures RequestInv(SaveDoneStep(s))
  {
    var t := SaveDoneStep(s);
    match s.worker.done
    case DoneTake => if SaveRequested in s.tickets { Claim(s, t, Save); } else { ClaimNothing(s, t, SaveRequested); }
    case DoneSignal => Completion(s, t, Save);
    case _ => Calm(s, t);
  }

  lemma SettleIsCalm(s: System)
    requires RequestInv(s) && s.worker.Settle? && s.worker.settle != SettleUnpark && s.worker.settle != SettleLoadSignal
    ensures RequestInv(SettleStep(s))
  {
    Calm(s, SettleStep(s));
  }

  lemma SettleEndsLoad(s: System)
    requires RequestInv(s) && (s.worker == Settle(SettleUnpark) || s.worker == Settle(SettleLoadSignal))
    ensures RequestInv(SettleStep(s))
  {
    var t := SettleStep(s);
    if s.worker.settle == SettleLoadSignal { Completion(s, t, Load); }
    else if LoadWaiting in s.tickets { UnparkLoad(s, t); }
    else { ClaimNothing(s, t, LoadWaiting); }
  }

  lemma FinishIsCalm(s: System)
    requires RequestInv(s) && s.worker.Finish?
    ensures RequestInv(FinishStep(s))
  {
    Calm(s, FinishStep(s));
  }

  lemma FlushTakesLoad(s: System)
    requires RequestInv(s) && s.worker == Flush(FlushLoad)
    ensures RequestInv(FlushStep(s))
  {
    var t := FlushStep(s);
    if LoadRequested in s.tickets { Claim(s, t, Load); } else { ClaimNothing(s, t, LoadRequested); }
  }

  lemma FlushUnparksLoad(s: System)
    requires RequestInv(s) && s.worker == Flush(FlushLoadWaiting)
    ensures RequestInv(FlushStep(s))
  {
    var t := FlushStep(s);
    if LoadWaiting in s.tickets { UnparkLoad(s, t); } else { ClaimNothing(s, t, LoadWaiting); }
  }

  lemma FlushKeepsLoad(s: System)
    requires RequestInv(s) && s.worker == Flush(FlushLoadTaken)
    ensures RequestInv(FlushStep(s))
  {
    ClaimNothing(s, FlushStep(s), LoadWaiting);
  }

  lemma FlushSignalsLoad(s: System)
    requires RequestInv(s) && s.worker == Flush(FlushLoadSignal)
    ensures RequestInv(FlushStep(s))
  {
    Completion(s, FlushStep(s), Load);
  }

  lemma FlushUnlocks(s: System)
    requires RequestInv(s) && s.worker == Flush(FlushUnlock)
    ensures RequestInv(FlushStep(s))
  {
    Calm(s, FlushStep(s));
  }

  lemma FlushTakesDebug(s: System)
    requires RequestInv(s) && s.worker == Flush(FlushDebug)
    ensures RequestInv(FlushStep(s))
  {
    var t := FlushStep(s);
    if DebugRequested in s.tickets { Claim(s, t, Debug); } else { ClaimNothing(s, t, DebugRequested); }
  }

  lemma FlushSignalsDebug(s: System)
    requires RequestInv(s) && s.worker == Flush(FlushDebugSignal)
    ensures RequestInv(FlushStep(s))
  {
    Completion(s, FlushStep(s), Debug);
  }

  lemma FlushTakesMedia(s: System)
    requires RequestInv(s) && s.worker == Flush(FlushMedia)
    ensures RequestInv(FlushStep(s))
  {
    var t := FlushStep(s);
    if MediaRequested in s.tickets { Claim(s, t, Media); } else { ClaimNothing(s, t, MediaRequested); }
  }

  lemma FlushSignalsMedia(s: System)
    requires RequestInv(s) && s.worker == Flush(FlushMediaSignal)
    ensures RequestInv(FlushStep(s))
  {
    Completion(s, FlushStep(s), Media);
  }

  // The caller moves while no request of its own is outstanding.
  lemma CallerAside(s: System, t: System)
    requires RequestInv(s) && !Outstanding(s.log)
    requires t.log == s.log && t.tickets == s.tickets && t.worker == s.worker
    requires forall k :: !Awaiting(t.caller, k) && t.caller != Submit(k, SubmitStore)
    ensures RequestInv(t)
  {
  }

  // While the caller awaits nothing, nothing is outstanding.
  lemma NotAwaiting(s: System)
    requires RequestInv(s) && forall k :: !Awaiting(s.caller, k)
    ensures !Outstanding(s.log)
  {
  }

  lemma LowerEvent(s: System, k: Kind)
    requires RequestInv(s) && s.caller == Submit(k, SubmitReset)
    ensures RequestInv(SubmitStep(s))
  {
    NotAwaiting(s);
  }

  lemma StoreKeepsKind(s: System, k: Kind, j: Kind)
    requires RequestInv(s) && KindInv(s, j) && s.caller == Submit(k, SubmitStore)
    ensures KindInv(SubmitStep(s), j)
  {
    NotAwaiting(s);
  }

  lemma StoreRequest(s: System, k: Kind)
    requires RequestInv(s) && s.caller == Submit(k, SubmitStore)
    ensures RequestInv(SubmitStep(s))
  {
    NotAwaiting(s);
    PairedGrows(s.log);
    StoreKeepsKind(s, k, Media);
    StoreKeepsKind(s, k, Debug);
    StoreKeepsKind(s, k, Save);
    StoreKeepsKind(s, k, Load);
  }

  lemma SubmitKeepsRequests(s: System)
    requires RequestInv(s) && s.caller.Submit? && s.caller.at != SubmitReset && s.caller.at != SubmitStore
    ensures RequestInv(SubmitStep(s))
  {
    if s.caller.at != SubmitSignal && s.caller.at != SubmitUnlock {
      NotAwaiting(s);
      CallerAside(s, SubmitStep(s));
    }
  }

  lemma CallerColdKeepsRequests(s: System)
    requires RequestInv(s) && s.caller.CallerCold?
    ensures RequestInv(CallerColdStep(s))
  {
    NotAwaiting(s);
    CallerAside(s, CallerColdStep(s));
  }

  lemma LifecycleKeepsRequests(s: System)
    requires RequestInv(s) && s.caller.Lifecycle?
    ensures RequestInv(LifecycleStep(s))
  {
    NotAwaiting(s);
    CallerAside(s, LifecycleStep(s));
  }

  lemma CloseKeepsRequests(s: System)
    requires RequestInv(s) && s.caller.Closing?
    ensures RequestInv(CloseStep(s))
  {
    NotAwaiting(s);
    CallerAside(s, CloseStep(s));
  }

  // A caller that has neither taken the request lock nor begun a run or the shutdown.
  ghost predicate Inert(c: Caller) { c.Idle? || c.ColdCheck? || c.Lifecycle? || (c.Submit? && c.at == SubmitLock) }

  // No invariant tells such callers apart.
  lemma InertRequests(s: System, c: Caller)
    requires RequestInv(s) && Inert(s.caller) && Inert(c)
    ensures RequestInv(s.(caller := c))
  {
    NotAwaiting(s);
    CallerAside(s, s.(caller := c));
  }

  lemma InertLocks(s: System, c: Caller)
    requires GuardInv(s) && LockInv(s) && DrainInv(s) && Inert(s.caller) && Inert(c)
    ensures var t := s.(caller := c); GuardInv(t) && LockInv(t) && DrainInv(t)
  {
  }

  lemma InertRuns(s: System, c: Caller)
    requires LifeInv(s) && WakeInv(s) && GateInv(s) && Inert(s.caller) && Inert(c)
    ensures var t := s.(caller := c); LifeInv(t) && WakeInv(t) && GateInv(t)
  {
  }

  lemma BeginMoves(s: System, choice: nat)
    requires s.caller == Idle
    ensures var c := CallerBegin(s, choice).caller; Inert(c) && CallerBegin(s, choice) == s.(caller := c)
  {
  }

  lemma BeginKeeps(s: System, choice: nat)
    requires Inv(s) && s.caller == Idle
    ensures Inv(CallerBegin(s, choice))
  {
    var c := CallerBegin(s, choice).caller;
    BeginMoves(s, choice);
    InertRequests(s, c);
    InertLocks(s, c);
    InertRuns(s, c);
  }

  // The other steps of the caller outside the entry points.
  ghost predicate Passing(c: Caller) { c.ColdCheck? || c.SubmitRefuse? || c.Waiting? || c.Joining? }

  lemma PassKeepsRequests(s: System)
    requires RequestInv(s) && CloseInv(s) && Passing(s.caller)
    ensures RequestInv(PassStep(s))
  {
    if s.caller.Waiting? {
      assert KindInv(s, s.caller.kind);
      if EventOf(s.caller.kind) in s.tickets { CallerAside(s, PassStep(s)); }
    } else {
      NotAwaiting(s);
      CallerAside(s, PassStep(s));
    }
  }

  lemma PassKeepsGuard(s: System)
    requires Passing(s.caller) && GuardInv(s) && RequestInv(s)
    ensures GuardInv(PassStep(s))
  {
  }

  lemma PassKeepsLock(s: System)
    requires Passing(s.caller) && LockInv(s) && DrainInv(s)
    ensures LockInv(PassStep(s)) && DrainInv(PassStep(s))
  {
  }

  lemma PassKeepsLife(s: System)
    requires Passing(s.caller) && LifeInv(s) && KindInv(s, Load) && CloseInv(s)
    ensures LifeInv(PassStep(s))
  {
  }

  lemma PassKeepsInput(s: System)
    requires Passing(s.caller) && WakeInv(s) && GateInv(s)
    ensures WakeInv(PassStep(s)) && GateInv(PassStep(s)) && SameInputs(s, PassStep(s))
  {
  }

  // ---------- the input order is kept ----------

  // Discarding the pending input keeps what was delivered in order, under any run number.
  lemma Discard(s: System)
    requires Ordered(s.queue, s.delivered, s.run, s.nextInput)
    ensures forall run :: Ordered([], s.delivered, run, s.nextInput)
  {
    var all := Inputs(s.delivered) + s.queue;
    assert forall i :: 0 <= i < |s.delivered| ==> (Inputs(s.delivered) + [])[i] == all[i];
  }

  // Delivering moves the oldest pending input behind the delivered ones.
  lemma Deliver(s: System)
    requires Ordered(s.queue, s.delivered, s.run, s.nextInput) && s.queue != [] && s.run > 0
    ensures Ordered(s.queue[1..], s.delivered + [Delivery(s.queue[0], s.run)], s.run, s.nextInput)
  {
    assert Inputs(s.delivered + [Delivery(s.queue[0], s.run)]) + s.queue[1..] == Inputs(s.delivered) + s.queue;
  }

  // An accepted input gets the next number.
  lemma Accept(s: System)
    requires Ordered(s.queue, s.delivered, s.run, s.nextInput)
    ensures Ordered(s.queue + [Input(s.nextInput, s.run)], s.delivered, s.run, s.nextInput + 1)
  {
    var x := Input(s.nextInput, s.run);
    assert Inputs(s.delivered) + (s.queue + [x]) == (Inputs(s.delivered) + s.queue) + [x];
  }

  lemma CallerColdKeepsGuards(s: System)
    requires s.caller.CallerCold? && WakeInv(s) && GuardInv(s)
    ensures WakeInv(CallerColdStep(s)) && GuardInv(CallerColdStep(s))
  {
  }

  lemma LifecycleKeepsClose(s: System)
    requires s.caller.Lifecycle? && CloseInv(s)
    ensures CloseInv(LifecycleStep(s))
  {
  }

  lemma LifecycleKeepsFrame(s: System)
    requires s.caller.Lifecycle? && FrameInv(s)
    ensures FrameInv(LifecycleStep(s))
  {
  }

  lemma SubmitKeepsGuard(s: System)
    requires s.caller.Submit? && GuardInv(s)
    ensures GuardInv(SubmitStep(s))
  {
  }

  lemma CloseKeepsGuards(s: System)
    requires s.caller.Closing? && WakeInv(s) && GuardInv(s)
    ensures WakeInv(CloseStep(s)) && GuardInv(CloseStep(s))
  {
  }

  lemma LoopKeepsGuard(s: System)
    requires s.worker.Loop? && GuardInv(s)
    ensures GuardInv(LoopStep(s))
  {
  }

  lemma LaunchKeepsGuards(s: System, choice: nat)
    requires s.worker.Launch? && WakeInv(s) && GuardInv(s)
    ensures WakeInv(LaunchStep(s, choice)) && GuardInv(LaunchStep(s, choice))
  {
  }

  lemma DriveKeepsGuard(s: System, choice: nat)
    requires s.worker.Drive? && GuardInv(s)
    ensures GuardInv(DriveStep(s, choice))
  {
  }

  lemma DriveKeepsWake(s: System, choice: nat)
    requires s.worker.Drive? && WakeInv(s)
    ensures WakeInv(DriveStep(s, choice))
  {
  }

  lemma ServeKeepsGuard(s: System)
    requires s.worker.Serve? && GuardInv(s)
    ensures GuardInv(ServeStep(s))
  {
  }

  lemma LoadKeepsGuard(s: System, choice: nat)
    requires s.worker.LoadState? && RequestInv(s) && LifeInv(s) && GuardInv(s)
    ensures GuardInv(LoadStep(s, choice))
  {
  }

  lemma LoadKeepsWake(s: System, choice: nat)
    requires s.worker.LoadState? && WakeInv(s) && RequestInv(s) && LifeInv(s)
    ensures WakeInv(LoadStep(s, choice))
  {
  }

  lemma AdoptKeepsWake(s: System)
    requires s.worker.Adopt? && WakeInv(s)
    ensures WakeInv(AdoptStep(s))
  {
  }

  lemma AdoptKeepsGuard(s: System)
    requires s.worker.Adopt? && GuardInv(s)
    ensures GuardInv(AdoptStep(s))
  {
  }

  lemma SaveKeepsWake(s: System, choice: nat)
    requires s.worker.SaveState? && WakeInv(s)
    ensures WakeInv(SaveStep(s, choice))
  {
  }

  lemma SaveKeepsGuard(s: System, choice: nat)
    requires s.worker.SaveState? && GuardInv(s)
    ensures GuardInv(SaveStep(s, choice))
  {
  }

  lemma SaveDoneKeepsGuards(s: System)
    requires s.worker.SaveDone? && WakeInv(s) && GuardInv(s)
    ensures WakeInv(SaveDoneStep(s)) && GuardInv(SaveDoneStep(s))
  {
  }

  lemma ExecKeepsGuard(s: System, choice: nat)
    requires s.worker.Exec? && GuardInv(s) && LifeInv(s)
    ensures GuardInv(ExecStep(s, choice))
  {
  }

  lemma SettleKeepsGuard(s: System)
    requires s.worker.Settle? && GuardInv(s)
    ensures GuardInv(SettleStep(s))
  {
  }

  lemma ParkKeepsGuard(s: System)
    requires s.worker.Park? && GuardInv(s)
    ensures GuardInv(ParkStep(s))
  {
  }

  lemma FinishKeepsGuard(s: System)
    requires s.worker.Finish? && GuardInv(s)
    ensures GuardInv(FinishStep(s))
  {
  }

  lemma FinishKeepsWake(s: System)
    requires s.worker.Finish? && WakeInv(s)
    ensures WakeInv(FinishStep(s))
  {
  }

  lemma FlushKeepsGuard(s: System)
    requires s.worker.Flush? && GuardInv(s)
    ensures GuardInv(FlushStep(s))
  {
  }

  lemma WorkerColdKeepsGuards(s: System)
    requires s.worker.WorkerCold? && WakeInv(s) && GuardInv(s)
    ensures WakeInv(WorkerColdStep(s)) && GuardInv(WorkerColdStep(s))
  {
  }

  lemma FlushKeepsLock(s: System)
    requires s.worker.Flush? && LockInv(s)
    ensures LockInv(FlushStep(s))
  {
  }

  lemma CallerColdKeepsLocks(s: System)
    requires s.caller.CallerCold? && LockInv(s) && DrainInv(s)
    ensures LockInv(CallerColdStep(s)) && DrainInv(CallerColdStep(s))
  {
  }

  lemma LifecycleKeepsLocks(s: System)
    requires s.caller.Lifecycle? && LockInv(s) && DrainInv(s)
    ensures LockInv(LifecycleStep(s)) && DrainInv(LifecycleStep(s))
  {
  }

  lemma SubmitKeepsLocks(s: System)
    requires s.caller.Submit? && LockInv(s) && DrainInv(s)
    ensures LockInv(SubmitStep(s)) && DrainInv(SubmitStep(s))
  {
  }

  lemma CloseKeepsLocks(s: System)
    requires s.caller.Closing? && LockInv(s) && DrainInv(s)
    ensures LockInv(CloseStep(s)) && DrainInv(CloseStep(s))
  {
  }

  lemma LoopKeepsLocks(s: System)
    requires s.worker.Loop? && LockInv(s) && DrainInv(s)
    ensures LockInv(LoopStep(s)) && DrainInv(LoopStep(s))
  {
  }

  lemma LaunchKeepsLocks(s: System, choice: nat)
    requires s.worker.Launch? && LockInv(s) && DrainInv(s)
    ensures LockInv(LaunchStep(s, choice)) && DrainInv(LaunchStep(s, choice))
  {
  }

  lemma DriveKeepsLocks(s: System, choice: nat)
    requires s.worker.Drive? && LockInv(s) && DrainInv(s)
    ensures LockInv(DriveStep(s, choice)) && DrainInv(DriveStep(s, choice))
  {
  }

  lemma ServeKeepsLocks(s: System)
    requires s.worker.Serve? && LockInv(s) && DrainInv(s)
    ensures LockInv(ServeStep(s)) && DrainInv(ServeStep(s))
  {
  }

  lemma LoadKeepsLocks(s: System, choice: nat)
    requires s.worker.LoadState? && LockInv(s) && DrainInv(s)
    ensures LockInv(LoadStep(s, choice)) && DrainInv(LoadStep(s, choice))
  {
  }

  lemma AdoptKeepsLocks(s: System)
    requires s.worker.Adopt? && LockInv(s) && DrainInv(s)
    ensures LockInv(AdoptStep(s)) && DrainInv(AdoptStep(s))
  {
  }

  lemma SaveKeepsLocks(s: System, choice: nat)
    requires s.worker.SaveState? && LockInv(s) && DrainInv(s)
    ensures LockInv(SaveStep(s, choice)) && DrainInv(SaveStep(s, choice))
  {
  }

  lemma SaveDoneKeepsLocks(s: System)
    requires s.worker.SaveDone? && LockInv(s) && DrainInv(s)
    ensures LockInv(SaveDoneStep(s)) && DrainInv(SaveDoneStep(s))
  {
  }

  lemma ExecKeepsLocks(s: System, choice: nat)
    requires s.worker.Exec? && LockInv(s) && DrainInv(s)
    ensures LockInv(ExecStep(s, choice)) && DrainInv(ExecStep(s, choice))
  {
  }

  lemma SettleKeepsLocks(s: System)
    requires s.worker.Settle? && LockInv(s) && DrainInv(s)
    ensures LockInv(SettleStep(s)) && DrainInv(SettleStep(s))
  {
  }

  lemma ParkKeepsLocks(s: System)
    requires s.worker.Park? && LockInv(s) && DrainInv(s)
    ensures LockInv(ParkStep(s)) && DrainInv(ParkStep(s))
  {
  }

  lemma FinishKeepsLocks(s: System)
    requires s.worker.Finish? && LockInv(s) && DrainInv(s)
    ensures LockInv(FinishStep(s)) && DrainInv(FinishStep(s))
  {
  }

  lemma FlushKeepsDrain(s: System)
    requires s.worker.Flush? && DrainInv(s) && LockInv(s)
    ensures DrainInv(FlushStep(s))
  {
  }

  lemma WorkerColdKeepsLocks(s: System)
    requires s.worker.WorkerCold? && LockInv(s) && DrainInv(s)
    ensures LockInv(WorkerColdStep(s)) && DrainInv(WorkerColdStep(s))
  {
  }

  lemma CallerColdKeepsLife(s: System)
    requires s.caller.CallerCold? && LifeInv(s)
    ensures LifeInv(CallerColdStep(s))
  {
  }

  lemma LifecycleKeepsLife(s: System)
    requires s.caller.Lifecycle? && LifeInv(s)
    ensures LifeInv(LifecycleStep(s))
  {
  }

  lemma SubmitKeepsLife(s: System)
    requires s.caller.Submit? && LifeInv(s)
    ensures LifeInv(SubmitStep(s))
  {
  }

  lemma CloseKeepsLife(s: System)
    requires s.caller.Closing? && LifeInv(s)
    ensures LifeInv(CloseStep(s))
  {
  }

  lemma LoopKeepsLife(s: System)
    requires s.worker.Loop? && LifeInv(s)
    ensures LifeInv(LoopStep(s))
  {
  }

  lemma LaunchKeepsLife(s: System, choice: nat)
    requires s.worker.Launch? && LifeInv(s)
    ensures LifeInv(LaunchStep(s, choice))
  {
  }

  lemma DriveKeepsLife(s: System, choice: nat)
    requires s.worker.Drive? && LifeInv(s)
    ensures LifeInv(DriveStep(s, choice))
  {
  }

  lemma ServeKeepsLife(s: System)
    requires s.worker.Serve? && LifeInv(s)
    ensures LifeInv(ServeStep(s))
  {
  }

  lemma LoadKeepsLife(s: System, choice: nat)
    requires s.worker.LoadState? && LifeInv(s) && KindInv(s, Load)
    ensures LifeInv(LoadStep(s, choice))
  {
  }

  lemma AdoptKeepsLife(s: System)
    requires s.worker.Adopt? && LifeInv(s) && KindInv(s, Load)
    ensures LifeInv(AdoptStep(s))
  {
  }

  lemma SaveKeepsLife(s: System, choice: nat)
    requires s.worker.SaveState? && LifeInv(s)
    ensures LifeInv(SaveStep(s, choice))
  {
  }

  lemma SaveDoneKeepsLife(s: System)
    requires s.worker.SaveDone? && LifeInv(s)
    ensures LifeInv(SaveDoneStep(s))
  {
  }

  lemma ExecKeepsLife(s: System, choice: nat)
    requires s.worker.Exec? && LifeInv(s)
    ensures LifeInv(ExecStep(s, choice))
  {
  }

  lemma SettleKeepsLife(s: System)
    requires s.worker.Settle? && LifeInv(s)
    ensures LifeInv(SettleStep(s))
  {
  }

  lemma ParkKeepsLife(s: System)
    requires s.worker.Park? && LifeInv(s)
    ensures LifeInv(ParkStep(s))
  {
  }

  lemma FinishKeepsLife(s: System)
    requires s.worker.Finish? && LifeInv(s)
    ensures LifeInv(FinishStep(s))
  {
  }

  lemma FlushKeepsLife(s: System)
    requires s.worker.Flush? && LifeInv(s)
    ensures LifeInv(FlushStep(s))
  {
  }

  lemma WorkerColdKeepsLife(s: System)
    requires s.worker.WorkerCold? && LifeInv(s)
    ensures LifeInv(WorkerColdStep(s))
  {
  }

  lemma LifecycleKeepsWake(s: System)
    requires s.caller.Lifecycle? && WakeInv(s)
    ensures WakeInv(LifecycleStep(s))
  {
  }

  lemma SubmitKeepsWake(s: System)
    requires s.caller.Submit? && WakeInv(s) && RequestInv(s) && LifeInv(s)
    ensures WakeInv(SubmitStep(s))
  {
  }

  lemma LoopKeepsWake(s: System)
    requires s.worker.Loop? && WakeInv(s) && RequestInv(s) && LifeInv(s)
    ensures WakeInv(LoopStep(s))
  {
  }

  lemma ServeKeepsWake(s: System)
    requires s.worker.Serve? && WakeInv(s) && LifeInv(s) && Sited(s.worker)
    ensures WakeInv(ServeStep(s))
  {
  }

  lemma ExecKeepsWake(s: System, choice: nat)
    requires s.worker.Exec? && WakeInv(s)
    ensures WakeInv(ExecStep(s, choice))
  {
  }

  lemma SettleKeepsWake(s: System)
    requires s.worker.Settle? && WakeInv(s)
    ensures WakeInv(SettleStep(s))
  {
  }

  lemma ParkKeepsWake(s: System)
    requires s.worker.Park? && WakeInv(s) && LifeInv(s) && Sited(s.worker)
    ensures WakeInv(ParkStep(s))
  {
  }

  lemma FlushKeepsWake(s: System)
    requires s.worker.Flush? && WakeInv(s)
    ensures WakeInv(FlushStep(s))
  {
  }

  lemma CallerColdKeepsInput(s: System)
    requires s.caller.CallerCold? && InputInv(s)
    ensures InputInv(CallerColdStep(s))
  {
    Discard(s);
  }

  lemma LifecycleKeepsInput(s: System)
    requires s.caller.Lifecycle? && GateInv(s)
    ensures GateInv(LifecycleStep(s)) && SameInputs(s, LifecycleStep(s))
  {
  }

  lemma SubmitKeepsInput(s: System)
    requires s.caller.Submit? && GateInv(s)
    ensures GateInv(SubmitStep(s)) && SameInputs(s, SubmitStep(s))
  {
  }

  lemma CloseKeepsInput(s: System)
    requires s.caller.Closing? && GateInv(s)
    ensures GateInv(CloseStep(s)) && SameInputs(s, CloseStep(s))
  {
  }

  lemma LoopKeepsInput(s: System)
    requires s.worker.Loop? && GateInv(s)
    ensures GateInv(LoopStep(s)) && SameInputs(s, LoopStep(s))
  {
  }

  lemma LaunchKeepsInput(s: System, choice: nat)
    requires s.worker.Launch? && GateInv(s)
    ensures GateInv(LaunchStep(s, choice)) && SameInputs(s, LaunchStep(s, choice))
  {
  }

  lemma DriveKeepsInput(s: System, choice: nat)
    requires s.worker.Drive? && GateInv(s)
    ensures GateInv(DriveStep(s, choice)) && SameInputs(s, DriveStep(s, choice))
  {
  }

  lemma ServeKeepsInput(s: System)
    requires s.worker.Serve? && GateInv(s)
    ensures GateInv(ServeStep(s)) && SameInputs(s, ServeStep(s))
  {
  }

  lemma LoadKeepsInput(s: System, choice: nat)
    requires s.worker.LoadState? && GateInv(s)
    ensures GateInv(LoadStep(s, choice)) && SameInputs(s, LoadStep(s, choice))
  {
  }

  lemma AdoptKeepsInput(s: System)
    requires s.worker.Adopt? && InputInv(s)
    ensures InputInv(AdoptStep(s))
  {
    Discard(s);
  }

  lemma SaveKeepsInput(s: System, choice: nat)
    requires s.worker.SaveState? && GateInv(s)
    ensures GateInv(SaveStep(s, choice)) && SameInputs(s, SaveStep(s, choice))
  {
  }

  lemma SaveDoneKeepsInput(s: System)
    requires s.worker.SaveDone? && GateInv(s)
    ensures GateInv(SaveDoneStep(s)) && SameInputs(s, SaveDoneStep(s))
  {
  }

  lemma ExecKeepsInput(s: System, choice: nat)
    requires s.worker.Exec? && InputInv(s) && LifeInv(s)
    ensures InputInv(ExecStep(s, choice))
  {
    if s.worker.exec == ExecDrain && s.queue != [] { Deliver(s); }
  }

  lemma SettleKeepsInput(s: System)
    requires s.worker.Settle? && GateInv(s)
    ensures GateInv(SettleStep(s)) && SameInputs(s, SettleStep(s))
  {
  }

  lemma ParkKeepsInput(s: System)
    requires s.worker.Park? && GateInv(s)
    ensures GateInv(ParkStep(s)) && SameInputs(s, ParkStep(s))
  {
  }

  lemma FinishKeepsInput(s: System)
    requires s.worker.Finish? && GateInv(s)
    ensures GateInv(FinishStep(s)) && SameInputs(s, FinishStep(s))
  {
  }

  lemma FlushKeepsInput(s: System)
    requires s.worker.Flush? && GateInv(s)
    ensures GateInv(FlushStep(s)) && SameInputs(s, FlushStep(s))
  {
  }

  lemma WorkerColdKeepsInput(s: System)
    requires s.worker.WorkerCold? && InputInv(s)
    ensures InputInv(WorkerColdStep(s))
  {
    Discard(s);
  }

  // ---------- every step keeps everything ----------

  lemma FlushKeepsRequests(s: System)
    requires RequestInv(s) && s.worker.Flush?
    ensures RequestInv(FlushStep(s))
  {
    match s.worker.flush
    case FlushDebug => FlushTakesDebug(s);
    case FlushDebugSignal => FlushSignalsDebug(s);
    case FlushMedia => FlushTakesMedia(s);
    case FlushMediaSignal => FlushSignalsMedia(s);
    case FlushUnlock => FlushUnlocks(s);
    case FlushLoad => FlushTakesLoad(s);
    case FlushLoadSignal => FlushSignalsLoad(s);
    case FlushLoadWaiting => FlushUnparksLoad(s);
    case _ => FlushKeepsLoad(s);
  }

  lemma LoopTurnKeeps(s: System)
    requires Inv(s) && s.worker.Loop?
    ensures Inv(LoopStep(s))
  {
    LoopIsCalm(s); LoopKeepsGuard(s); LoopKeepsLocks(s); LoopKeepsLife(s); LoopKeepsWake(s); LoopKeepsInput(s);
  }

  lemma LaunchTurnKeeps(s: System, choice: nat)
    requires Inv(s) && s.worker.Launch?
    ensures Inv(LaunchStep(s, choice))
  {
    RunIsCalm(s, choice); LaunchKeepsGuards(s, choice); LaunchKeepsLocks(s, choice);
    LaunchKeepsLife(s, choice); LaunchKeepsInput(s, choice);
  }

  lemma DriveTurnKeeps(s: System, choice: nat)
    requires Inv(s) && s.worker.Drive?
    ensures Inv(DriveStep(s, choice))
  {
    RunIsCalm(s, choice); DriveKeepsGuard(s, choice); DriveKeepsWake(s, choice); DriveKeepsLocks(s, choice);
    DriveKeepsLife(s, choice); DriveKeepsInput(s, choice);
  }

  lemma ServeTurnKeeps(s: System)
    requires Inv(s) && s.worker.Serve?
    ensures Inv(ServeStep(s))
  {
    ServeKeepsRequests(s); ServeKeepsGuard(s); ServeKeepsLocks(s); ServeKeepsLife(s); ServeKeepsWake(s);
    ServeKeepsInput(s);
  }

  lemma LoadTurnKeeps(s: System, choice: nat)
    requires Inv(s) && s.worker.LoadState?
    ensures Inv(LoadStep(s, choice))
  {
    LoadKeepsRequests(s, choice); LoadKeepsGuard(s, choice); LoadKeepsWake(s, choice); LoadKeepsLocks(s, choice);
    LoadKeepsLife(s, choice); LoadKeepsInput(s, choice);
  }

  lemma AdoptTurnKeeps(s: System)
    requires Inv(s) && s.worker.Adopt?
    ensures Inv(AdoptStep(s))
  {
    AdoptKeepsRequests(s); AdoptKeepsGuard(s); AdoptKeepsWake(s); AdoptKeepsLocks(s);
    AdoptKeepsLife(s); AdoptKeepsInput(s);
  }

  lemma SaveTurnKeeps(s: System, choice: nat)
    requires Inv(s) && s.worker.SaveState?
    ensures Inv(SaveStep(s, choice))
  {
    SaveIsCalm(s, choice); SaveKeepsGuard(s, choice); SaveKeepsWake(s, choice); SaveKeepsLocks(s, choice);
    SaveKeepsLife(s, choice); SaveKeepsInput(s, choice);
  }

  lemma SaveDoneTurnKeeps(s: System)
    requires Inv(s) && s.worker.SaveDone?
    ensures Inv(SaveDoneStep(s))
  {
    SaveDoneKeepsRequests(s); SaveDoneKeepsGuards(s); SaveDoneKeepsLocks(s);
    SaveDoneKeepsLife(s); SaveDoneKeepsInput(s);
  }

  lemma ExecTurnKeeps(s: System, choice: nat)
    requires Inv(s) && s.worker.Exec?
    ensures Inv(ExecStep(s, choice))
  {
    ExecIsCalm(s, choice); ExecKeepsGuard(s, choice); ExecKeepsLocks(s, choice);
    ExecKeepsLife(s, choice); ExecKeepsWake(s, choice); ExecKeepsInput(s, choice);
  }

  lemma SettleTurnKeeps(s: System)
    requires Inv(s) && s.worker.Settle?
    ensures Inv(SettleStep(s))
  {
    if s.worker.settle == SettleUnpark || s.worker.settle == SettleLoadSignal {
      SettleEndsLoad(s);
    } else {
      SettleIsCalm(s);
    }
    SettleKeepsGuard(s); SettleKeepsLocks(s); SettleKeepsLife(s); SettleKeepsWake(s); SettleKeepsInput(s);
  }

  lemma ParkTurnKeeps(s: System)
    requires Inv(s) && s.worker.Park?
    ensures Inv(ParkStep(s))
  {
    ParkIsCalm(s); ParkKeepsGuard(s); ParkKeepsLocks(s); ParkKeepsLife(s); ParkKeepsWake(s); ParkKeepsInput(s);
  }

  lemma FinishTurnKeeps(s: System)
    requires Inv(s) && s.worker.Finish?
    ensures Inv(FinishStep(s))
  {
    FinishIsCalm(s); FinishKeepsGuard(s); FinishKeepsWake(s); FinishKeepsLocks(s); FinishKeepsLife(s);
    FinishKeepsInput(s);
  }

  lemma FlushTurnKeeps(s: System)
    requires Inv(s) && s.worker.Flush?
    ensures Inv(FlushStep(s))
  {
    FlushKeepsRequests(s); FlushKeepsGuard(s); FlushKeepsLock(s); FlushKeepsDrain(s); FlushKeepsLife(s);
    FlushKeepsWake(s); FlushKeepsInput(s);
  }

  lemma WorkerColdTurnKeeps(s: System)
    requires Inv(s) && s.worker.WorkerCold?
    ensures Inv(WorkerColdStep(s))
  {
    WorkerColdIsCalm(s); WorkerColdKeepsGuards(s); WorkerColdKeepsLocks(s);
    WorkerColdKeepsLife(s); WorkerColdKeepsInput(s);
  }

  lemma WorkerStepKeeps(s: System, choice: nat)
    requires Inv(s)
    ensures Inv(WorkerStep(s, choice))
  {
    match s.worker
    case Loop(_) => LoopTurnKeeps(s);
    case Launch(_) => LaunchTurnKeeps(s, choice);
    case Drive(_) => DriveTurnKeeps(s, choice);
    case Serve(_, _, _) => ServeTurnKeeps(s);
    case LoadState(_) => LoadTurnKeeps(s, choice);
    case Adopt(_) => AdoptTurnKeeps(s);
    case SaveState(_, _) => SaveTurnKeeps(s, choice);
    case SaveDone(_, _) => SaveDoneTurnKeeps(s);
    case Exec(_) => ExecTurnKeeps(s, choice);
    case Settle(_) => SettleTurnKeeps(s);
    case Park(_) => ParkTurnKeeps(s);
    case Finish(_) => FinishTurnKeeps(s);
    case Flush(_) => FlushTurnKeeps(s);
    case WorkerCold(_) => WorkerColdTurnKeeps(s);
    case Exited =>
  }

  lemma SubmitTurnKeeps(s: System)
    requires Inv(s) && s.caller.Submit?
    ensures Inv(SubmitStep(s))
  {
    var k, at := s.caller.kind, s.caller.at;
    if at == SubmitReset { LowerEvent(s, k); } else if at == SubmitStore { StoreRequest(s, k); }
      else { SubmitKeepsRequests(s); }
    SubmitKeepsGuard(s); SubmitKeepsLocks(s); SubmitKeepsLife(s); SubmitKeepsWake(s); SubmitKeepsInput(s);
  }

  lemma CallerColdTurnKeeps(s: System)
    requires Inv(s) && s.caller.CallerCold?
    ensures Inv(CallerColdStep(s))
  {
    CallerColdKeepsRequests(s); CallerColdKeepsGuards(s); CallerColdKeepsLocks(s);
    CallerColdKeepsLife(s); CallerColdKeepsInput(s);
  }

  lemma LifecycleTurnKeeps(s: System)
    requires Inv(s) && s.caller.Lifecycle?
    ensures Inv(LifecycleStep(s))
  {
    LifecycleKeepsRequests(s); LifecycleKeepsClose(s); LifecycleKeepsFrame(s); LifecycleKeepsLocks(s);
    LifecycleKeepsLife(s); LifecycleKeepsWake(s); LifecycleKeepsInput(s);
  }

  lemma CloseTurnKeeps(s: System)
    requires Inv(s) && s.caller.Closing?
    ensures Inv(CloseStep(s))
  {
    CloseKeepsRequests(s); CloseKeepsGuards(s); CloseKeepsLocks(s); CloseKeepsLife(s); CloseKeepsInput(s);
  }

  lemma PassTurnKeeps(s: System)
    requires Inv(s) && Passing(s.caller)
    ensures Inv(PassStep(s))
  {
    PassKeepsRequests(s); PassKeepsGuard(s); PassKeepsLock(s); PassKeepsLife(s); PassKeepsInput(s);
  }

  lemma CallerStepKeeps(s: System, choice: nat)
    requires Inv(s)
    ensures Inv(CallerStep(s, choice))
  {
    match s.caller
    case Idle => BeginKeeps(s, choice);
    case CallerCold(_, _) => CallerColdTurnKeeps(s);
    case Lifecycle(_) => LifecycleTurnKeeps(s);
    case Submit(_, _) => SubmitTurnKeeps(s);
    case Closing(_) => CloseTurnKeeps(s);
    case _ => PassTurnKeeps(s);
  }

  // The other threads touch only the input queue and the command event.
  lemma OfferKeeps(s: System)
    requires GuardInv(s) && LockInv(s) && DrainInv(s) && LifeInv(s) && WakeInv(s) && GateInv(s)
    ensures var t := OfferInput(s); GuardInv(t) && LockInv(t) && DrainInv(t) && LifeInv(t) && WakeInv(t) && GateInv(t)
  {
  }

  lemma InputTurnKeeps(s: System)
    requires Inv(s)
    ensures Inv(OfferInput(s))
  {
    Calm(s, OfferInput(s));
    OfferKeeps(s);
    Accept(s);
  }

  lemma CancelKeeps(s: System)
    requires GuardInv(s) && LockInv(s) && DrainInv(s) && LifeInv(s) && WakeInv(s) && GateInv(s)
    ensures var t := CancelDebug(s); GuardInv(t) && LockInv(t) && DrainInv(t) && LifeInv(t) && WakeInv(t) && GateInv(t)
  {
  }

  lemma CancelTurnKeeps(s: System)
    requires Inv(s)
    ensures Inv(CancelDebug(s))
  {
    Calm(s, CancelDebug(s));
    CancelKeeps(s);
  }

  lemma StepKeeps(s: System, turn: Turn)
    requires Inv(s)
    ensures Inv(Step(s, turn))
  {
    match turn
    case CallerTurn(choice) => CallerStepKeeps(s, choice);
    case WorkerTurn(choice) => WorkerStepKeeps(s, choice);
    case InputTurn => InputTurnKeeps(s);
    case CancelDebugTurn => CancelTurnKeeps(s);
  }

  lemma {:induction false} RunKeeps(turns: seq<Turn>)
    ensures Inv(Run(turns))
  {
    if turns != [] {
      RunKeeps(turns[..|turns| - 1]);
      StepKeeps(Run(turns[..|turns| - 1]), turns[|turns| - 1]);
    }
  }
}
