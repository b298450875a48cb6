/**
 The execution plans of the machine debugger: the hooks that the processor calls before an
 instruction, after it retired and on each memory access, and the plan and watch requests.
 */
module Debugger {

  const WRAP_32 := 0x1_0000_0000

  datatype Plan = NoPlan | Trace(count: nat) | Break(address: nat)

  datatype Watch = Off(last: nat) | On(address: nat)

  datatype WatchKind = ReadWatch | WriteWatch | ExecuteWatch

  datatype Hit = NoHit | Hit(kind: WatchKind, address: nat)

  datatype Access = Access(write: bool, address: nat, bytes: nat)

  const ACCESS_CAPACITY := 32

  datatype Observation = Observation(hit: Hit, accesses: seq<Access>, truncated: bool)

  const NOTHING := Observation(NoHit, [], false)

  datatype Flag = StopPending | ResultReady | SkipFirst | InInstruction

  datatype State = State(
    plan: Plan, executed: nat, stoppedAddress: nat, on: set<Flag>,
    readWatch: Watch, writeWatch: Watch, executeWatch: Watch, observation: Observation)

  predicate Watching(s: State) { s.readWatch.On? || s.writeWatch.On? || s.executeWatch.On? }

  function Set(s: State, f: Flag): State { s.(on := s.on + {f}) }

  function Unset(s: State, f: Flag): State { s.(on := s.on - {f}) }

  // softpc_host_debug_begin: at an instruction boundary, stop before the instruction or let it run.
  function Begin(s: State, address: nat): (State, bool) {
    if s.plan.NoPlan? && StopPending !in s.on && !Watching(s) then (Unset(s, InInstruction), false)
    else
      var skip := SkipFirst in s.on && s.stoppedAddress == address;
      var s1 := Unset(s, SkipFirst);
      if StopPending in s.on then (Stop(s1, address), true)
      else
        var s2 := Unset(s1.(observation := NOTHING), ResultReady);
        if !skip && s.executeWatch == On(address)
        then (Stop(s2.(observation := NOTHING.(hit := Hit(ExecuteWatch, address))), address), true)
        else if skip || !s.plan.Break? || address != s.plan.address
        then (Set(s2, InInstruction), false)
        else (Stop(s2, address), true)
  }

  function Stop(s: State, address: nat): State {
    s.(on := s.on - {InInstruction} + {SkipFirst, ResultReady, StopPending}, stoppedAddress := address, plan := NoPlan)
  }

  // softpc_host_debug_retired.
  function Retired(s: State): State {
    var s1 := Unset(s, InInstruction);
    if s.plan.NoPlan? && !Watching(s) then s1
    else
      var executed := if s.executed == WRAP_32 - 1 then s.executed else s.executed + 1;
      var s2 := s1.(executed := executed);
      if (s.plan.Trace? && executed >= s.plan.count) || s.observation.hit.Hit? then Set(s2, StopPending) else s2
  }

  // A watched address lies in an access; addresses wrap.
  predicate Touches(w: Watch, a: Access) { w.On? && (w.address - a.address) % WRAP_32 < a.bytes }

  // softpc_host_debug_access.
  function Accessed(s: State, a: Access): State {
    if InInstruction !in s.on || a.bytes == 0 then s
    else
      var w := if a.write then s.writeWatch else s.readWatch;
      var kind := if a.write then WriteWatch else ReadWatch;
      var hit := if Touches(w, a) && s.observation.hit.NoHit? then Hit(kind, w.address) else s.observation.hit;
      var s1 := s.(observation := s.observation.(hit := hit));
      if !s.plan.Trace? && hit.NoHit? then s1
      else if |s.observation.accesses| >= ACCESS_CAPACITY then s1.(observation := s1.observation.(truncated := true))
      else s1.(observation := s1.observation.(accesses := s.observation.accesses + [a]))
  }

  // The plan request, at the current instruction pointer.
  function SetPlan(s: State, plan: Plan, here: nat): State {
    var skip := (ResultReady in s.on || SkipFirst in s.on) && s.stoppedAddress == here;
    s.(plan := plan, executed := 0, observation := NOTHING,
       on := if skip then s.on - {StopPending, ResultReady} + {SkipFirst}
         else s.on - {StopPending, ResultReady, SkipFirst})
  }

  function ClearPlan(s: State): State {
    s.(plan := NoPlan, executed := 0, observation := NOTHING, on := s.on - {StopPending, ResultReady})
  }

  // ---------- runs ----------

  datatype Instruction = Instruction(address: nat, accesses: seq<Access>)

  function AccessAll(s: State, accesses: seq<Access>): State {
    if accesses == [] then s else Accessed(AccessAll(s, accesses[..|accesses| - 1]), accesses[|accesses| - 1])
  }

  // An instruction that is let run: its accesses, then its retirement.
  function Execute(s: State, i: Instruction): State { Retired(AccessAll(Begin(s, i.address).0, i.accesses)) }

  function ExecuteAll(s: State, run: seq<Instruction>): State {
    if run == [] then s else Execute(ExecuteAll(s, run[..|run| - 1]), run[|run| - 1])
  }

  // Every instruction of a run is let run.
  predicate LetsRun(s: State, run: seq<Instruction>) {
    run == [] || (LetsRun(s, run[..|run| - 1]) && !Begin(ExecuteAll(s, run[..|run| - 1]), run[|run| - 1].address).1)
  }

  // No watch would be hit by an instruction.
  predicate Quiet(s: State, i: Instruction) {
    s.executeWatch != On(i.address) &&
    forall k :: 0 <= k < |i.accesses| ==>
      !Touches(if i.accesses[k].write then s.writeWatch else s.readWatch, i.accesses[k])
  }

  predicate AllQuiet(s: State, run: seq<Instruction>) { forall k :: 0 <= k < |run| ==> Quiet(s, run[k]) }

  // Accesses change nothing but the observation, and without a touched watch they hit nothing.
  lemma {:induction false} AccessAllKeeps(s: State, accesses: seq<Access>)
    ensures var t := AccessAll(s, accesses); t == s.(observation := t.observation)
    ensures s.observation.hit.NoHit?
      && (forall k :: 0 <= k < |accesses| ==>
            !Touches(if accesses[k].write then s.writeWatch else s.readWatch, accesses[k]))
      ==> AccessAll(s, accesses).observation.hit.NoHit?
  {
    if accesses != [] {
      var n := |accesses| - 1;
      AccessAllKeeps(s, accesses[..n]);
      assert forall k :: 0 <= k < n ==> accesses[..n][k] == accesses[k];
    }
  }

  // Nothing is due to stop a run.
  predicate Fresh(s: State) { StopPending !in s.on && s.executed == 0 }

  // A plan starts a run afresh, and remembers the boundary it starts at if that is the last stop.
  lemma PlanIsFresh(s: State, plan: Plan, here: nat, address: nat)
    ensures var t := SetPlan(s, plan, here);
      Fresh(t) && t.plan == plan
        && (StepsOff(t, address) <==> (ResultReady in s.on || SkipFirst in s.on) && s.stoppedAddress == here == address)
  {
  }

  // ---- trace ----

  // A trace plan with some instructions retired and none of the watches hit.
  predicate Tracing(s: State, start: State, done: nat) {
    && s.plan == start.plan && s.plan.Trace? && s.executed == done
    && (StopPending in s.on <==> done >= s.plan.count)
    && s.readWatch == start.readWatch && s.writeWatch == start.writeWatch && s.executeWatch == start.executeWatch
  }

  lemma TraceStep(s: State, start: State, done: nat, i: Instruction)
    requires Tracing(s, start, done) && done < s.plan.count < WRAP_32 && Quiet(start, i)
    ensures !Begin(s, i.address).1 && Tracing(Execute(s, i), start, done + 1)
  {
    AccessAllKeeps(Begin(s, i.address).0, i.accesses);
  }

  lemma {:induction false} TraceRuns(start: State, run: seq<Instruction>)
    requires start.plan.Trace? && 1 <= start.plan.count < WRAP_32 && Fresh(start)
    requires |run| <= start.plan.count && AllQuiet(start, run)
    ensures LetsRun(start, run) && Tracing(ExecuteAll(start, run), start, |run|)
  {
    if run != [] {
      var n := |run| - 1;
      assert forall k :: 0 <= k < n ==> run[..n][k] == run[k];
      TraceRuns(start, run[..n]);
      TraceStep(ExecuteAll(start, run[..n]), start, n, run[n]);
    }
  }

  // A trace plan of n instructions lets any n run, and stops at the boundary behind them.
  lemma TraceStopsExactly(start: State, run: seq<Instruction>, next: nat)
    requires start.plan.Trace? && 1 <= start.plan.count < WRAP_32 && Fresh(start)
    requires |run| <= start.plan.count && AllQuiet(start, run)
    ensures LetsRun(start, run)
    ensures |run| < start.plan.count && start.executeWatch != On(next) ==> !Begin(ExecuteAll(start, run), next).1
    ensures |run| == start.plan.count ==> Begin(ExecuteAll(start, run), next).1
  {
    TraceRuns(start, run);
  }

  // ---- break ----

  // A break plan under way: after the first boundary nothing is skipped any more.
  predicate Breaking(s: State, start: State, done: nat) {
    && s.plan == start.plan && s.plan.Break? && StopPending !in s.on
    && (if done == 0 then s == start else SkipFirst !in s.on)
    && s.readWatch == start.readWatch && s.writeWatch == start.writeWatch && s.executeWatch == start.executeWatch
  }

  // The boundary the debugger last stopped at, which the first step leaves.
  predicate StepsOff(start: State, address: nat) { SkipFirst in start.on && start.stoppedAddress == address }

  lemma BreakStep(s: State, start: State, done: nat, i: Instruction)
    requires Breaking(s, start, done) && Quiet(start, i)
    ensures Begin(s, i.address).1 <==> i.address == start.plan.address && !(done == 0 && StepsOff(start, i.address))
    ensures !Begin(s, i.address).1 ==> Breaking(Execute(s, i), start, done + 1)
  {
    AccessAllKeeps(Begin(s, i.address).0, i.accesses);
  }

  // No instruction of a run stands at the target, but for one step off the last stop.
  predicate Misses(start: State, run: seq<Instruction>)
    requires start.plan.Break?
  {
    forall k :: 0 <= k < |run| ==> run[k].address != start.plan.address || (k == 0 && StepsOff(start, run[k].address))
  }

  lemma {:induction false} BreakRuns(start: State, run: seq<Instruction>)
    requires start.plan.Break? && Fresh(start) && AllQuiet(start, run)
    ensures LetsRun(start, run) <==> Misses(start, run)
    ensures LetsRun(start, run) ==> Breaking(ExecuteAll(start, run), start, |run|)
  {
    if run != [] {
      var n := |run| - 1;
      assert forall k :: 0 <= k < n ==> run[..n][k] == run[k];
      BreakRuns(start, run[..n]);
      if LetsRun(start, run[..n]) { BreakStep(ExecuteAll(start, run[..n]), start, n, run[n]); }
    }
  }

  // A break plan stops before the instruction at its target, and nowhere else: the first one at
  // the target, but for one step off the boundary the debugger last stopped at.
  lemma BreakStopsBefore(start: State, run: seq<Instruction>, i: Instruction)
    requires start.plan.Break? && Fresh(start) && AllQuiet(start, run) && Misses(start, run) && Quiet(start, i)
    ensures LetsRun(start, run)
    ensures Begin(ExecuteAll(start, run), i.address).1 <==>
      i.address == start.plan.address && !(run == [] && StepsOff(start, i.address))
  {
    BreakRuns(start, run);
    BreakStep(ExecuteAll(start, run), start, |run|, i);
  }

  // ---- watches ----

  // A touched watch stops at the next boundary, and the result names the first one touched.
  lemma {:induction false} FirstTouchStays(s: State, accesses: seq<Access>, k: nat)
    requires InInstruction in s.on && s.observation.hit.NoHit? && k < |accesses| && accesses[k].bytes > 0
    requires forall j :: 0 <= j < k ==> !Touches(if accesses[j].write then s.writeWatch else s.readWatch, accesses[j])
    requires Touches(if accesses[k].write then s.writeWatch else s.readWatch, accesses[k])
    ensures AccessAll(s, accesses).observation.hit ==
      Hit(if accesses[k].write then WriteWatch else ReadWatch,
          (if accesses[k].write then s.writeWatch else s.readWatch).address)
  {
    var n := |accesses| - 1;
    AccessAllKeeps(s, accesses[..n]);
    assert forall j :: 0 <= j < n ==> accesses[..n][j] == accesses[j];
    if k < n { FirstTouchStays(s, accesses[..n], k); }
  }

  lemma WatchStops(s: State, i: Instruction, k: nat, next: nat)
    requires StopPending !in s.on && !Begin(s, i.address).1 && k < |i.accesses| && i.accesses[k].bytes > 0
    requires forall j :: 0 <= j < k ==>
      !Touches(if i.accesses[j].write then s.writeWatch else s.readWatch, i.accesses[j])
    requires Touches(if i.accesses[k].write then s.writeWatch else s.readWatch, i.accesses[k])
    ensures var (t, stopped) := Begin(Execute(s, i), next);
      stopped && t.observation.hit == Hit(if i.accesses[k].write then WriteWatch else ReadWatch,
                                          (if i.accesses[k].write then s.writeWatch else s.readWatch).address)
  {
    var b := Begin(s, i.address).0;
    FirstTouchStays(b, i.accesses, k);
    AccessAllKeeps(b, i.accesses);
  }

  // A stop is remembered with the boundary it happened at; going on changes nothing of that.
  lemma StopsAreRemembered(s: State, address: nat)
    ensures var (t, stopped) := Begin(s, address);
      && (stopped ==>
            && t.stoppedAddress == address && t.plan == NoPlan
            && {SkipFirst, ResultReady, StopPending} <= t.on && InInstruction !in t.on)
      && (!stopped ==> t.stoppedAddress == s.stoppedAddress && t.plan == s.plan && StopPending !in t.on)
  {
  }

  // An execute watch stops before its instruction, but for one step off the last stop, and is named
  // in the result.
  lemma ExecuteWatchStops(s: State, address: nat)
    requires s.executeWatch == On(address) && StopPending !in s.on && !StepsOff(s, address)
    ensures var (t, stopped) := Begin(s, address);
      stopped && t.stoppedAddress == address && t.observation.hit == Hit(ExecuteWatch, address)
  {
  }

  // Stopped at an address, with a break plan for the same address set there: the instruction runs,
  // and the next time round the plan stops before it again.
  lemma BreakStopsAgain(s: State, a: nat, run: seq<Instruction>, again: Instruction)
    requires Begin(s, a).1 && run != [] && run[0].address == a == again.address
    requires forall k :: 1 <= k < |run| ==> run[k].address != a
    requires AllQuiet(s, run) && Quiet(s, again)
    ensures var start := SetPlan(Begin(s, a).0, Break(a), a);
      LetsRun(start, run) && Begin(ExecuteAll(start, run), a).1
  {
    var start := SetPlan(Begin(s, a).0, Break(a), a);
    StopsAreRemembered(s, a);
    assert AllQuiet(start, run) && Quiet(start, again);
    BreakStopsBefore(start, run, again);
  }

  // ---- recorded accesses ----

  function Nonempty(accesses: seq<Access>): seq<Access> {
    if accesses == [] then []
    else
      var n := |accesses| - 1;
      Nonempty(accesses[..n]) + if accesses[n].bytes > 0 then [accesses[n]] else []
  }

  // A trace records the accesses of an instruction in order, up to the capacity, and says if there
  // were more.
  lemma {:induction false} TraceRecords(s: State, accesses: seq<Access>)
    requires InInstruction in s.on && s.plan.Trace? && s.observation.accesses == [] && !s.observation.truncated
    ensures var all, seen := Nonempty(accesses), AccessAll(s, accesses).observation;
      && seen.accesses == all[..if |all| <= ACCESS_CAPACITY then |all| else ACCESS_CAPACITY]
      && (seen.truncated <==> |all| > ACCESS_CAPACITY)
  {
    if accesses != [] {
      var n := |accesses| - 1;
      TraceRecords(s, accesses[..n]);
      AccessAllKeeps(s, accesses[..n]);
    }
  }

  // ---------- the state in place ----------

  datatype Status = Ok | InvalidArgument

  class DebugState {
    var plan: Plan
    var executed: nat
    var stoppedAddress: nat
    var on: set<Flag>  // the four booleans that are set
    var readWatch: Watch
    var writeWatch: Watch
    var executeWatch: Watch
    var observation: Observation

    ghost function View(): State
      reads this
    {
      State(plan, executed, stoppedAddress, on, readWatch, writeWatch, executeWatch, observation)
    }

    constructor ()
      ensures View() == State(NoPlan, 0, 0, {}, Off(0), Off(0), Off(0), NOTHING)
    {
      plan, executed, stoppedAddress := NoPlan, 0, 0;
      on := {};
      readWatch, writeWatch, executeWatch, observation := Off(0), Off(0), Off(0), NOTHING;
    }

    method OnBegin(address: nat) returns (stopped: bool)
      modifies this
      ensures (View(), stopped) == Begin(old(View()), address)
    {
      if plan.NoPlan? && StopPending !in on && !readWatch.On? && !writeWatch.On? && !executeWatch.On? {
        on := on - {InInstruction};
        return false;
      }
      var skip := SkipFirst in on && stoppedAddress == address;
      on := on - {SkipFirst};
      if StopPending !in on {
        observation, on := NOTHING, on - {ResultReady};
        if !skip && executeWatch == On(address) {
          observation := observation.(hit := Hit(ExecuteWatch, address));
        } else if skip || !plan.Break? || address != plan.address {
          on := on + {InInstruction};
          return false;
        }
      }
      stoppedAddress := address;
      on := on - {InInstruction} + {SkipFirst, ResultReady, StopPending};
      plan := NoPlan;
      stopped := true;
    }

    method OnRetired()
      modifies this
      ensures View() == Retired(old(View()))
    {
      on := on - {InInstruction};
      if plan.NoPlan? && !readWatch.On? && !writeWatch.On? && !executeWatch.On? { return; }
      if executed != WRAP_32 - 1 { executed := executed + 1; }
      if plan.Trace? && executed >= plan.count { on := on + {StopPending}; }
      if observation.hit.Hit? { on := on + {StopPending}; }
    }

    method OnAccess(a: Access)
      modifies this`observation
      ensures View() == Accessed(old(View()), a)
    {
      if InInstruction !in on || a.bytes == 0 { return; }
      var w := if a.write then writeWatch else readWatch;
      if Touches(w, a) && observation.hit.NoHit? {
        observation := observation.(hit := Hit(if a.write then WriteWatch else ReadWatch, w.address));
      }
      if !plan.Trace? && observation.hit.NoHit? { return; }
      if |observation.accesses| >= ACCESS_CAPACITY {
        observation := observation.(truncated := true);
        return;
      }
      observation := observation.(accesses := observation.accesses + [a]);
    }

    // The request to set a plan; a trace needs at least one instruction.
    method RequestPlan(request: Plan, here: nat) returns (status: Status)
      modifies this
      ensures status == InvalidArgument <==> request.NoPlan? || (request.Trace? && !(1 <= request.count < WRAP_32))
      ensures View() == if status == Ok then SetPlan(old(View()), request, here) else old(View())
    {
      if request.NoPlan? || (request.Trace? && (request.count == 0 || request.count > WRAP_32 - 1)) {
        return InvalidArgument;
      }
      var skip := (ResultReady in on || SkipFirst in on) && stoppedAddress == here;
      plan, executed := request, 0;
      on := on - {StopPending, ResultReady, SkipFirst};
      if skip { on := on + {SkipFirst}; }
      observation := NOTHING;
      status := Ok;
    }

    method RequestClear()
      modifies this
      ensures View() == ClearPlan(old(View()))
    {
      plan, executed, observation := NoPlan, 0, NOTHING;
      on := on - {StopPending, ResultReady};
    }
  }
}
