/** The scheduling loop as a state machine. One event is one stretch of the program that runs
    without an await: a launch round, a semaphore grant, the end of a sub-agent together with its
    patch, a collection round, and the two halves of winding down after a failure. */
module SchedulerMachine {
  import opened Wrappers
  import opened Dependencies
  import opened Rewiring
  import opened DependencyGraphs

  datatype Config = Config(maxParallel: int, failFast: bool, rewiring: bool) {
    /** max(1, max_parallel) */
    function Width(): (w: nat) {
      if maxParallel < 1 then 1 else maxParallel
    }
  }

  /** Scheduling: about to launch. Suspended: awaiting a completion. Draining: cancelling after a
      failure. Finished: nothing left in flight. Aborted: wound down after a failure. */
  datatype Control = Scheduling | Suspended | Draining | Finished | Aborted

  /** Where a task stands in the loop's own bookkeeping, beside its public status. Waiting: launched,
      waiting for the semaphore. Holding: inside it. Ended: over, not yet collected. Completed and
      Collected: in completed_ids or failed_ids. Dropped: cleared while winding down. */
  datatype Phase = Unlaunched | Waiting | Holding | Ended | Completed | Collected | Dropped

  datatype State = State(
    status: map<TaskId, TaskStatus>,
    phase: map<TaskId, Phase>,
    deps: DependencyMap,
    control: Control)

  /** How a sub-agent ends. Interrupted leaves the status "running", as a cancellation does. */
  datatype Outcome = Returned(patch: Option<DependencyPatch>) | Raised | Interrupted

  datatype Event =
    | Launch
    | Acquire(task: TaskId)
    | Finish(task: TaskId, outcome: Outcome)
    | Collect(done: set<TaskId>)
    | Abandon(task: TaskId)
    | WindUp

  // -------------------------------------------------------------- the steps

  function InPhaseOf(phase: map<TaskId, Phase>, p: Phase): (r: set<TaskId>) {
    set t | t in phase && phase[t] == p
  }

  function InPhase(s: State, p: Phase): (r: set<TaskId>) {
    InPhaseOf(s.phase, p)
  }

  predicate InFlight(s: State) {
    exists t :: t in s.phase && s.phase[t] in {Waiting, Holding, Ended}
  }

  predicate DepsCompleted(s: State, t: TaskId) {
    t in s.deps && forall y :: y in s.deps[t] ==> y in InPhase(s, Completed)
  }

  /** Ready according to the graph, and not in started_ids. */
  predicate Fresh(s: State, t: TaskId) {
    t in s.status && s.status[t] == Pending && t in s.phase && s.phase[t] == Unlaunched && DepsCompleted(s, t)
  }

  function Launched(s: State): (r: State) {
    s.(phase := map t | t in s.phase :: if Fresh(s, t) then Waiting else s.phase[t])
  }

  function SkipPending(s: State): (r: State) {
    s.(status := map t | t in s.status :: if s.status[t] == Pending then Skipped else s.status[t])
  }

  function SkipRunning(s: State): (r: State) {
    s.(status := map t | t in s.status :: if s.status[t] == Running then Skipped else s.status[t])
  }

  /** A task collected while still "running" was cancelled and counts as failed. */
  function Settle(s: State, done: set<TaskId>): (r: State)
    requires s.phase.Keys == s.status.Keys
  {
    s.(status := map t | t in s.status :: if t in done && s.status[t] == Running then Failed else s.status[t],
       phase := map t | t in s.phase ::
         if t !in done then s.phase[t] else if s.status[t] == Succeeded then Completed else Collected)
  }

  function StatusAfter(outcome: Outcome): (s: TaskStatus) {
    match outcome
    case Returned(_) => Succeeded
    case Raised => Failed
    case Interrupted => Running
  }

  /** The live graph after a sub-agent ended: swapped only for an accepted patch. */
  ghost function Rewired(c: Config, d: DependencyMap, outcome: Outcome): (r: DependencyMap) {
    if c.rewiring && outcome.Returned? && outcome.patch.Some? && Patched(d, outcome.patch.value).Some?
    then Patched(d, outcome.patch.value).value
    else d
  }

  function AfterCollect(c: Config, s: State, done: set<TaskId>): (r: State)
    requires s.phase.Keys == s.status.Keys
  {
    var next := Settle(s, done);
    if !(c.failFast && exists t :: t in done && t in s.status && s.status[t] != Succeeded) then
        next.(control := Scheduling)
    else if InFlight(next) then SkipPending(next).(control := Draining)
    else SkipRunning(SkipPending(next)).(control := Aborted)
  }

  function AfterLaunch(s: State): (r: State) {
    var next := Launched(s);
    if InFlight(next) then next.(control := Suspended) else SkipPending(next).(control := Finished)
  }

  function AfterAcquire(s: State, t: TaskId): (r: State) {
    s.(phase := s.phase[t := Holding], status := s.status[t := Running])
  }

  ghost function AfterFinish(c: Config, s: State, t: TaskId, outcome: Outcome): (r: State) {
    s.(phase := s.phase[t := Ended], status := s.status[t := StatusAfter(outcome)], deps := Rewired(c, s.deps, outcome))
  }

  function AfterAbandon(s: State, t: TaskId): (r: State) {
    s.(phase := s.phase[t := Ended])
  }

  function AfterWindUp(s: State): (r: State) {
    SkipRunning(s).(phase := map t | t in s.phase :: if s.phase[t] == Ended then Dropped else s.phase[t],
                    control := Aborted)
  }

  predicate Enabled(c: Config, s: State, e: Event) {
    && s.phase.Keys == s.status.Keys
    && match e
       case Launch => s.control == Scheduling
       case Acquire(t) => s.control == Suspended && t in InPhase(s, Waiting) && |InPhase(s, Holding)| < c.Width()
       case Finish(t, _) => (s.control == Suspended || s.control == Draining) && t in InPhase(s, Holding)
       case Collect(done) => s.control == Suspended && done != {} && done <= InPhase(s, Ended)
       case Abandon(t) => s.control == Draining && t in InPhase(s, Waiting)
       case WindUp => s.control == Draining && InPhase(s, Waiting) == InPhase(s, Holding) == {}
  }

  ghost function Apply(c: Config, s: State, e: Event): (r: State)
    requires Enabled(c, s, e)
  {
    match e
    case Launch => AfterLaunch(s)
    case Acquire(t) => AfterAcquire(s, t)
    case Finish(t, outcome) => AfterFinish(c, s, t, outcome)
    case Collect(done) => AfterCollect(c, s, done)
    case Abandon(t) => AfterAbandon(s, t)
    case WindUp => AfterWindUp(s)
  }

  /** A run begins with a graph that passed validation; tasks may carry any status. */
  ghost predicate Initial(s: State) {
    && s.status.Keys == s.phase.Keys == s.deps.Keys && Known(s.deps) && !Cyclic(s.deps)
    && (forall t :: t in s.phase ==> s.phase[t] == Unlaunched)
    && s.control == Scheduling
  }

  ghost predicate Legal(c: Config, s: State, es: seq<Event>)
    decreases |es|, 0
  {
    es == [] || (Legal(c, s, es[..|es| - 1]) && Enabled(c, Exec(c, s, es[..|es| - 1]), es[|es| - 1]))
  }

  ghost function Exec(c: Config, s: State, es: seq<Event>): (r: State)
    requires Legal(c, s, es)
    decreases |es|, 1
  {
    if es == [] then s else Apply(c, Exec(c, s, es[..|es| - 1]), es[|es| - 1])
  }

  // --------------------------------------------------------- the invariant

  predicate Active(control: Control) {
    control == Scheduling || control == Suspended
  }

  predicate Terminal(control: Control) {
    control == Control.Finished || control == Aborted
  }

  /** The status of a task that was never launched. */
  function UnlaunchedStatus(control: Control, first: TaskStatus): (r: TaskStatus) {
    if Active(control) then first
    else if first == Pending then Skipped
    else if first == Running && control == Aborted then Skipped
    else first
  }

  /** What the bookkeeping of one task says about its status, given its status at the start. */
  predicate TaskInv(control: Control, first: TaskStatus, status: TaskStatus, phase: Phase) {
    match phase
    case Unlaunched => status == UnlaunchedStatus(control, first)
    case Waiting => first == Pending && !Terminal(control) && status == if Active(control) then Pending else Skipped
    case Holding => first == Pending && !Terminal(control) && status == Running
    case Ended => first == Pending && !Terminal(control)
                  && (status in {Succeeded, Failed, Running} || (control == Draining && status == Skipped))
    case Completed => first == Pending && status == Succeeded
    case Collected => first == Pending && status == Failed
    case Dropped => first == Pending && control == Aborted && status in {Succeeded, Failed, Skipped}
  }

  ghost predicate Incomplete(s: State, t: TaskId) {
    WaitsOn(s.deps, t, s.phase.Keys - InPhase(s, Completed))
  }

  /** A task that could have been launched, but never was, waits for something incomplete. */
  ghost predicate Blocked(s0: State, s: State)
    requires s.phase.Keys == s0.status.Keys
  {
    forall t {:trigger Incomplete(s, t)} ::
      t in s.phase && s.phase[t] == Unlaunched && s0.status[t] == Pending ==> Incomplete(s, t)
  }

  ghost predicate Inv(c: Config, s0: State, s: State) {
    && s.status.Keys == s.phase.Keys == s.deps.Keys == s0.status.Keys
    && Known(s.deps) && !Cyclic(s.deps)
    && (forall t :: t in s.phase ==> TaskInv(s.control, s0.status[t], s.status[t], s.phase[t]))
    && |InPhase(s, Holding)| <= c.Width()
    && (c.failFast && (Active(s.control) || s.control == Control.Finished) ==> InPhase(s, Collected) == {})
    && (s.control == Suspended ==> InFlight(s))
    && (s.control == Draining || s.control == Aborted ==> c.failFast && InPhase(s, Collected) != {})
    && (s.control == Control.Finished ==> Blocked(s0, s))
  }

  /** A round changes no task's status without its bookkeeping. */
  lemma LaunchTask(first: TaskStatus, s: State, t: TaskId)
    requires s.control == Scheduling && t in s.phase && t in s.status
        && TaskInv(s.control, first, s.status[t], s.phase[t])
    ensures var r := AfterLaunch(s);
            t in r.phase && t in r.status && TaskInv(r.control, first, r.status[t], r.phase[t])
  {
    var next := Launched(s);
    if next.phase[t] in {Waiting, Holding, Ended} { assert InFlight(next); }
  }

  lemma CollectTask(c: Config, first: TaskStatus, s: State, done: set<TaskId>, t: TaskId)
    requires Enabled(c, s, Collect(done)) && t in s.phase && TaskInv(s.control, first, s.status[t], s.phase[t])
    ensures var r := AfterCollect(c, s, done);
            t in r.phase && t in r.status && TaskInv(r.control, first, r.status[t], r.phase[t])
  {
    var next := Settle(s, done);
    if t in done { assert t in InPhase(s, Ended); }
    if next.phase[t] in {Waiting, Holding, Ended} { assert InFlight(next); }
  }

  lemma WindUpTask(c: Config, first: TaskStatus, s: State, t: TaskId)
    requires Enabled(c, s, WindUp) && t in s.phase && TaskInv(s.control, first, s.status[t], s.phase[t])
    ensures var r := AfterWindUp(s);
            t in r.phase && t in r.status && TaskInv(r.control, first, r.status[t], r.phase[t])
  {
    assert t !in InPhase(s, Waiting) && t !in InPhase(s, Holding);
  }

  lemma LaunchKeepsInv(c: Config, s0: State, s: State)
    requires Inv(c, s0, s) && Enabled(c, s, Launch)
    ensures Inv(c, s0, AfterLaunch(s))
  {
    var r := AfterLaunch(s);
    forall t | t in s.phase ensures TaskInv(r.control, s0.status[t], r.status[t], r.phase[t]) {
      LaunchTask(s0.status[t], s, t);
    }
    LaunchSets(s);
    if !InFlight(Launched(s)) { NothingFresh(c, s0, s); }
  }

  lemma LaunchSets(s: State)
    ensures forall p :: p != Waiting && p != Unlaunched ==> InPhase(Launched(s), p) == InPhase(s, p)
  {
  }

  lemma NothingFresh(c: Config, s0: State, s: State)
    requires Inv(c, s0, s) && s.control == Scheduling && !InFlight(Launched(s))
    ensures Blocked(s0, AfterLaunch(s))
  {
    var r := AfterLaunch(s);
    LaunchSets(s);
    forall t | t in r.phase && r.phase[t] == Unlaunched && s0.status[t] == Pending ensures Incomplete(r, t) {
      assert TaskInv(s.control, s0.status[t], s.status[t], s.phase[t]);
      assert !Fresh(s, t);
      var y :| y in s.deps[t] && y !in InPhase(s, Completed);
      assert HasDep(s.deps, t, y);
    }
  }

  lemma AcquireKeepsInv(c: Config, s0: State, s: State, t: TaskId)
    requires Inv(c, s0, s) && Enabled(c, s, Acquire(t))
    ensures Inv(c, s0, AfterAcquire(s, t))
  {
    var r := AfterAcquire(s, t);
    assert InPhase(r, Holding) == InPhase(s, Holding) + {t};
    assert InPhase(r, Collected) == InPhase(s, Collected);
    assert r.phase[t] == Holding;
  }

  lemma FinishKeepsInv(c: Config, s0: State, s: State, t: TaskId, outcome: Outcome)
    requires Inv(c, s0, s) && Enabled(c, s, Finish(t, outcome))
    ensures Inv(c, s0, AfterFinish(c, s, t, outcome))
  {
    RewiredIsSound(c, s.deps, outcome);
    FinishSets(s, AfterFinish(c, s, t, outcome), t);
    var r := AfterFinish(c, s, t, outcome);
    assert r.phase[t] == Ended;
  }

  lemma RewiredIsSound(c: Config, d: DependencyMap, outcome: Outcome)
    requires Known(d) && !Cyclic(d)
    ensures var r := Rewired(c, d, outcome); Known(r) && !Cyclic(r) && r.Keys == d.Keys
  {
    if outcome.Returned? && outcome.patch.Some? { PatchKeepsSound(d, outcome.patch.value); }
  }

  lemma FinishSets(s: State, r: State, t: TaskId)
    requires t in InPhase(s, Holding) && r.phase == s.phase[t := Ended]
    ensures InPhase(r, Holding) <= InPhase(s, Holding) && |InPhase(r, Holding)| <= |InPhase(s, Holding)|
    ensures InPhase(r, Collected) == InPhase(s, Collected)
  {
    assert InPhase(s, Holding) == InPhase(r, Holding) + {t};
  }

  lemma CollectKeepsInv(c: Config, s0: State, s: State, done: set<TaskId>)
    requires Inv(c, s0, s) && Enabled(c, s, Collect(done))
    ensures Inv(c, s0, AfterCollect(c, s, done))
  {
    var r := AfterCollect(c, s, done);
    CollectSets(c, s, done);
    assert r.status.Keys == r.phase.Keys == s0.status.Keys && r.deps == s.deps;
    forall t | t in r.phase ensures TaskInv(r.control, s0.status[t], r.status[t], r.phase[t]) {
      CollectTask(c, s0.status[t], s, done, t);
    }
    if r.control != Scheduling {
      var t :| t in done && s.status[t] != Succeeded;
      assert t in InPhase(r, Collected);
    }
  }

  lemma CollectSets(c: Config, s: State, done: set<TaskId>)
    requires Enabled(c, s, Collect(done))
    ensures var r := AfterCollect(c, s, done);
            && InPhase(r, Holding) == InPhase(s, Holding)
            && InPhase(r, Collected) == InPhase(s, Collected) + (set t | t in done && s.status[t] != Succeeded)
            && r.status.Keys == s.status.Keys && r.phase.Keys == s.phase.Keys && r.deps == s.deps
            && (r.control == Scheduling <==> !(c.failFast && exists t :: t in done && s.status[t] != Succeeded))
            && (r.control == Scheduling || r.control == Draining || r.control == Aborted)
  {
    assert InPhase(Settle(s, done), Holding) == InPhase(s, Holding);
    assert InPhase(Settle(s, done), Collected)
        == InPhase(s, Collected) + (set t | t in done && s.status[t] != Succeeded);
  }

  lemma AbandonKeepsInv(c: Config, s0: State, s: State, u: TaskId)
    requires Inv(c, s0, s) && Enabled(c, s, Abandon(u))
    ensures Inv(c, s0, AfterAbandon(s, u))
  {
    var r := AfterAbandon(s, u);
    assert InPhase(r, Holding) == InPhase(s, Holding);
    assert InPhase(r, Collected) == InPhase(s, Collected);
    assert r.phase[u] == Ended;
  }

  lemma WindUpKeepsInv(c: Config, s0: State, s: State)
    requires Inv(c, s0, s) && Enabled(c, s, WindUp)
    ensures Inv(c, s0, AfterWindUp(s))
  {
    WindUpSets(s);
    var r := AfterWindUp(s);
    forall t | t in r.phase ensures TaskInv(r.control, s0.status[t], r.status[t], r.phase[t]) {
      WindUpTask(c, s0.status[t], s, t);
    }
  }

  lemma WindUpSets(s: State)
    ensures InPhase(AfterWindUp(s), Holding) == InPhase(s, Holding)
    ensures InPhase(AfterWindUp(s), Collected) == InPhase(s, Collected)
  {
  }

  lemma StepKeepsInv(c: Config, s0: State, s: State, e: Event)
    requires Inv(c, s0, s) && Enabled(c, s, e)
    ensures Inv(c, s0, Apply(c, s, e))
  {
    match e
    case Launch => LaunchKeepsInv(c, s0, s);
    case Acquire(t) => AcquireKeepsInv(c, s0, s, t);
    case Finish(t, outcome) => FinishKeepsInv(c, s0, s, t, outcome);
    case Collect(done) => CollectKeepsInv(c, s0, s, done);
    case Abandon(t) => AbandonKeepsInv(c, s0, s, t);
    case WindUp => WindUpKeepsInv(c, s0, s);
  }

  /** Every state of every run satisfies the invariant. */
  lemma {:induction false} RunKeepsInv(c: Config, s0: State, es: seq<Event>)
    requires Initial(s0) && Legal(c, s0, es)
    ensures Inv(c, s0, Exec(c, s0, es))
  {
    if es == [] {
      assert InPhase(s0, Holding) == {} && InPhase(s0, Collected) == {};
    } else {
      var front := es[..|es| - 1];
      RunKeepsInv(c, s0, front);
      StepKeepsInv(c, s0, Exec(c, s0, front), es[|es| - 1]);
    }
  }
}
