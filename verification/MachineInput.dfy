/**
 No accepted input is lost while a run lasts: what was accepted since the queue was last emptied for
 a new run is what was delivered since then, followed by what is queued.
 */
module MachineInput {
  import opened MachineModel
  import opened MachineProof

  // A new run empties the queue.
  ghost predicate Empties(s: System, turn: Turn) {
    || (turn.CallerTurn? && s.caller.CallerCold? && s.caller.cold == ColdClear)
    || (turn.WorkerTurn? && (s.worker == WorkerCold(ColdClear) || s.worker == Adopt(AdoptClear)))
  }

  // An offered input is accepted.
  ghost predicate Accepts(s: System, turn: Turn) { turn.InputTurn? && Accepting in s.on && |s.queue| < QUEUE_LIMIT }

  // The inputs accepted since the queue was last emptied.
  ghost function AcceptedInputs(turns: seq<Turn>): seq<Input> {
    if turns == [] then []
    else
      var n := |turns| - 1;
      var s := Run(turns[..n]);
      if Empties(s, turns[n]) then []
      else AcceptedInputs(turns[..n]) + if Accepts(s, turns[n]) then [Input(s.nextInput, s.run)] else []
  }

  // How many inputs had been delivered then.
  ghost function DeliveredBefore(turns: seq<Turn>): nat {
    if turns == [] then 0
    else
      var n := |turns| - 1;
      if Empties(Run(turns[..n]), turns[n]) then |Run(turns[..n]).delivered| else DeliveredBefore(turns[..n])
  }

  // What a step does to the inputs: it takes some from the queue to the guest.
  ghost predicate Moves(s: System, t: System) {
    && |s.delivered| <= |t.delivered| && t.delivered[..|s.delivered|] == s.delivered
    && s.queue == Inputs(t.delivered[|s.delivered|..]) + t.queue
  }

  lemma SameMoves(s: System, t: System)
    requires SameInputs(s, t)
    ensures Moves(s, t)
  {
    assert t.delivered[|s.delivered|..] == [];
  }

  lemma DrainMoves(s: System, choice: nat)
    requires s.worker.Exec?
    ensures Moves(s, ExecStep(s, choice))
  {
    var t := ExecStep(s, choice);
    if s.worker.exec == ExecDrain && s.queue != [] {
      assert t.delivered[|s.delivered|..] == [Delivery(s.queue[0], s.run)];
    } else {
      assert t.queue == s.queue && t.delivered == s.delivered && t.delivered[|s.delivered|..] == [];
    }
  }

  lemma ColdMoves(s: System, at: ColdPc, origin: Origin)
    requires at != ColdClear
    ensures Moves(s, ColdEffect(s, at, origin))
  {
    var t := ColdEffect(s, at, origin);
    assert t.queue == s.queue && t.delivered == s.delivered && t.delivered[|s.delivered|..] == [];
  }

  lemma AdoptMoves(s: System)
    requires s.worker.Adopt? && s.worker.adopt != AdoptClear
    ensures Moves(s, AdoptStep(s))
  {
    var t := AdoptStep(s);
    assert t.queue == s.queue && t.delivered == s.delivered && t.delivered[|s.delivered|..] == [];
  }

  lemma WorkerMoves(s: System, choice: nat)
    requires GateInv(s) && !Empties(s, WorkerTurn(choice))
    ensures Moves(s, WorkerStep(s, choice))
  {
    match s.worker
    case Loop(_) => LoopKeepsInput(s); SameMoves(s, LoopStep(s));
    case Launch(_) => LaunchKeepsInput(s, choice); SameMoves(s, LaunchStep(s, choice));
    case Drive(_) => DriveKeepsInput(s, choice); SameMoves(s, DriveStep(s, choice));
    case Serve(_, _, _) => ServeKeepsInput(s); SameMoves(s, ServeStep(s));
    case LoadState(_) => LoadKeepsInput(s, choice); SameMoves(s, LoadStep(s, choice));
    case Adopt(_) => AdoptMoves(s);
    case SaveState(_, _) => SaveKeepsInput(s, choice); SameMoves(s, SaveStep(s, choice));
    case SaveDone(_, _) => SaveDoneKeepsInput(s); SameMoves(s, SaveDoneStep(s));
    case Exec(_) => DrainMoves(s, choice);
    case Settle(_) => SettleKeepsInput(s); SameMoves(s, SettleStep(s));
    case Park(_) => ParkKeepsInput(s); SameMoves(s, ParkStep(s));
    case Finish(_) => FinishKeepsInput(s); SameMoves(s, FinishStep(s));
    case Flush(_) => FlushKeepsInput(s); SameMoves(s, FlushStep(s));
    case WorkerCold(at) => ColdMoves(s, at, ForReset);
    case Exited => SameMoves(s, s);
  }

  lemma BeginMoves(s: System, choice: nat)
    requires s.caller == Idle
    ensures Moves(s, CallerBegin(s, choice))
  {
    SameMoves(s, CallerBegin(s, choice));
  }

  lemma PassMoves(s: System)
    ensures Moves(s, PassStep(s))
  {
    SameMoves(s, PassStep(s));
  }

  lemma CallerColdMoves(s: System)
    requires s.caller.CallerCold? && s.caller.cold != ColdClear
    ensures Moves(s, CallerColdStep(s))
  {
    if s.caller.cold == ColdInvalidate && FrameLocked(s.worker) {
      SameMoves(s, s);
    } else {
      ColdMoves(s, s.caller.cold, s.caller.origin);
    }
  }

  lemma CallerMoves(s: System, choice: nat)
    requires Inv(s) && !Empties(s, CallerTurn(choice))
    ensures Moves(s, CallerStep(s, choice))
  {
    match s.caller
    case Idle => BeginMoves(s, choice);
    case CallerCold(_, _) => CallerColdMoves(s);
    case Lifecycle(_) => LifecycleKeepsInput(s); SameMoves(s, LifecycleStep(s));
    case Submit(_, _) => SubmitKeepsInput(s); SameMoves(s, SubmitStep(s));
    case Closing(_) => CloseKeepsInput(s); SameMoves(s, CloseStep(s));
    case _ => PassMoves(s);
  }

  lemma StepMoves(s: System, turn: Turn)
    requires Inv(s) && !Empties(s, turn) && !Accepts(s, turn)
    ensures Moves(s, Step(s, turn))
  {
    match turn
    case CallerTurn(choice) => CallerMoves(s, choice);
    case WorkerTurn(choice) => WorkerMoves(s, choice);
    case InputTurn => SameMoves(s, OfferInput(s));
    case CancelDebugTurn => SameMoves(s, CancelDebug(s));
  }

  lemma StepEmpties(s: System, turn: Turn)
    requires Empties(s, turn)
    ensures Step(s, turn).queue == [] && Step(s, turn).delivered == s.delivered
  {
  }

  // Some deliveries more, behind those counted from a place on.
  lemma Continues(a: seq<Delivery>, b: seq<Delivery>, k: nat, was: seq<Input>, now: seq<Input>)
    requires k <= |a| <= |b| && b[..|a|] == a && was == Inputs(b[|a|..]) + now
    ensures Inputs(a[k..]) + was == Inputs(b[k..]) + now
  {
    assert b[k..] == a[k..] + b[|a|..];
    assert Inputs(b[k..]) == Inputs(a[k..]) + Inputs(b[|a|..]);
  }

  // In every schedule the inputs accepted since the queue was last emptied are those delivered since
  // then, followed by those queued.
  lemma {:induction false} InputsAreConserved(turns: seq<Turn>)
    ensures var s, k := Run(turns), DeliveredBefore(turns);
      k <= |s.delivered| && AcceptedInputs(turns) == Inputs(s.delivered[k..]) + s.queue
  {
    if turns != [] {
      var n := |turns| - 1;
      InputsAreConserved(turns[..n]);
      RunKeeps(turns[..n]);
      Conserves(Run(turns[..n]), turns[n], AcceptedInputs(turns[..n]), DeliveredBefore(turns[..n]));
    }
  }

  lemma Conserves(s: System, turn: Turn, accepted: seq<Input>, k: nat)
    requires Inv(s) && k <= |s.delivered| && accepted == Inputs(s.delivered[k..]) + s.queue
    ensures var t := Step(s, turn);
      if Empties(s, turn) then t.queue == [] && t.delivered == s.delivered
      else
        && k <= |t.delivered|
        && accepted + (if Accepts(s, turn) then [Input(s.nextInput, s.run)] else []) == Inputs(t.delivered[k..])
           + t.queue
  {
    var t := Step(s, turn);
    if Empties(s, turn) {
      StepEmpties(s, turn);
    } else if !Accepts(s, turn) {
      StepMoves(s, turn);
      Continues(s.delivered, t.delivered, k, s.queue, t.queue);
    }
  }
}
