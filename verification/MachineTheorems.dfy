/**
 What the executor rendezvous guarantees to its callers, for every schedule.
 */
module MachineTheorems {
  import opened MachineModel
  import opened MachineProof
  import opened MachineSave

  lemma {:induction false} PairedByIndex(log: seq<Observation>, i: nat)
    requires Paired(log) && i < |log|
    ensures if i % 2 == 0 then log[i].Accepted? else log[i] == Completed(log[i - 1].kind)
  {
    var rest := log[..|log| - 1];
    if i < |rest| {
      PairedByIndex(rest, i);
    } else if rest != [] {
      PairedByIndex(rest, i - 1);
    }
  }

  // In every schedule acceptances and completions strictly alternate, and each completion
  // answers the acceptance before it: no accepted request is completed twice, and no
  // completion is signalled that nobody asked for.
  lemma EachRequestCompletesAtMostOnce(turns: seq<Turn>, i: nat)
    requires i < |Run(turns).log|
    ensures var log := Run(turns).log;
      if i % 2 == 0 then log[i].Accepted? else log[i] == Completed(log[i - 1].kind)
  {
    RunKeeps(turns);
    PairedByIndex(Run(turns).log, i);
  }

  lemma ExitIsFinal(s: System, turn: Turn)
    requires DrainInv(s) && LockInv(s) && s.worker == Exited
    ensures Step(s, turn).worker == Exited && Step(s, turn).log == s.log
  {
  }

  lemma ExitLeavesNothing(s: System)
    requires RequestInv(s) && DrainInv(s) && s.worker == Exited
    ensures |s.log| % 2 == 0
  {
    if s.log != [] {
      assert !Outstanding(s.log);
      PairedByIndex(s.log, |s.log| - 1);
    }
  }

  lemma OneTurnAfterExit(turns: seq<Turn>, turn: Turn)
    requires Run(turns).worker == Exited
    ensures Run(turns + [turn]).worker == Exited && Run(turns + [turn]).log == Run(turns).log
  {
    RunKeeps(turns);
    ExitIsFinal(Run(turns), turn);
    assert (turns + [turn])[..|turns|] == turns;
  }

  // Once the worker has exited, every accepted request has been completed and nothing is
  // accepted or completed any more, whatever happens next.
  lemma {:induction false} NothingOutlivesTheWorker(turns: seq<Turn>, more: seq<Turn>)
    requires Run(turns).worker == Exited
    ensures |Run(turns).log| % 2 == 0
    ensures Run(turns + more).worker == Exited
    ensures Run(turns + more).log == Run(turns).log
    decreases |more|
  {
    if more == [] {
      RunKeeps(turns);
      ExitLeavesNothing(Run(turns));
      assert turns + more == turns;
    } else {
      var n := |more| - 1;
      NothingOutlivesTheWorker(turns, more[..n]);
      OneTurnAfterExit(turns + more[..n], more[n]);
      assert turns + more == turns + more[..n] + [more[n]];
    }
  }

  // A caller leaves its wait only after its own request has been completed: the last two
  // observations are its acceptance and its completion. It never takes the cancelled exit.
  lemma WaitEndsWithItsOwnCompletion(turns: seq<Turn>, choice: nat)
    requires Run(turns).caller.Waiting?
    requires Run(turns + [CallerTurn(choice)]).caller != Run(turns).caller
    ensures Run(turns + [CallerTurn(choice)]).caller == Idle
    ensures var k, log := Run(turns).caller.kind, Run(turns).log;
      |log| >= 2 && log[|log| - 2..] == [Accepted(k), Completed(k)]
  {
    RunKeeps(turns);
    assert (turns + [CallerTurn(choice)])[..|turns|] == turns;
    WaitEnds(Run(turns), choice);
  }

  lemma WaitEnds(s: System, choice: nat)
    requires RequestInv(s) && CloseInv(s) && DrainInv(s) && s.caller.Waiting?
      && Step(s, CallerTurn(choice)).caller != s.caller
    ensures Step(s, CallerTurn(choice)).caller == Idle
    ensures var k, log := s.caller.kind, s.log; |log| >= 2 && log[|log| - 2..] == [Accepted(k), Completed(k)]
  {
    var k := s.caller.kind;
    assert KindInv(s, k);
    assert s.log[|s.log| - 1] == Completed(k);
    PairedByIndex(s.log, |s.log| - 1);
    PairedByIndex(s.log, |s.log| - 2);
  }

  // No wake-up is lost: a request of any kind that is stored while its caller waits finds the
  // worker's wait enabled, both in the loop and parked in PAUSED.
  lemma NoLostWakeUp(turns: seq<Turn>, k: Kind, choice: nat)
    requires Run(turns).caller == Waiting(k) && RequestOf(k) in Run(turns).tickets
    requires Run(turns).worker == Loop(Wait) || Run(turns).worker == Park(ParkWait)
    ensures CommandEvent in Run(turns).on
    ensures WorkerStep(Run(turns), choice).worker != Run(turns).worker
  {
    RunKeeps(turns);
    if k == Save {
      RunKeepsSave(turns);
      SaveIsAnnounced(Run(turns));
    } else {
      OthersAreAnnounced(Run(turns), k);
    }
    EnabledWaitMoves(Run(turns), choice);
  }

  lemma OthersAreAnnounced(s: System, k: Kind)
    requires WakeInv(s) && DrainInv(s) && k != Save && s.caller == Waiting(k) && RequestOf(k) in s.tickets
    requires s.worker == Loop(Wait) || s.worker == Park(ParkWait)
    ensures CommandEvent in s.on
  {
    assert Announced(s, k);
  }

  lemma EnabledWaitMoves(s: System, choice: nat)
    requires CommandEvent in s.on && (s.worker == Loop(Wait) || s.worker == Park(ParkWait))
    ensures WorkerStep(s, choice).worker != s.worker
  {
  }

  // Each delivered input was accepted in the run it is delivered in, and inputs are
  // delivered in acceptance order, none twice.
  lemma InputsStayInTheirRun(turns: seq<Turn>)
    ensures var ds := Run(turns).delivered;
      && (forall i :: 0 <= i < |ds| ==> ds[i].input.run == ds[i].run >= 1)
      && (forall i, j :: 0 <= i < j < |ds| ==> ds[i].input.id < ds[j].input.id)
  {
    RunKeeps(turns);
    var s := Run(turns);
    var all := Inputs(s.delivered) + s.queue;
    forall i, j | 0 <= i < j < |s.delivered|
      ensures s.delivered[i].input.id < s.delivered[j].input.id
    {
      assert all[i] == s.delivered[i].input && all[j] == s.delivered[j].input;
    }
  }

  // With the frame lock free, a frame that can be observed under a run number was published in
  // that run, and that run is the current one; without a run number there is no frame. This
  // rests on no run being scheduled while a frame is published and stamped.
  lemma FramesStayInTheirRun(turns: seq<Turn>, g: nat)
    requires Run(turns).frameRun == g && !FrameLocked(Run(turns).worker)
    ensures g >= 1 ==> Run(turns).frame == FrameOf(g) && Run(turns).run == g
    ensures g == 0 ==> Run(turns).frame == NoFrame
  {
    RunKeeps(turns);
    FrameIsOfRun(Run(turns), g);
  }

  lemma FrameIsOfRun(s: System, g: nat)
    requires FrameInv(s) && s.frameRun == g && !FrameLocked(s.worker)
    ensures g >= 1 ==> s.frame == FrameOf(g) && s.run == g
    ensures g == 0 ==> s.frame == NoFrame
  {
  }
}
