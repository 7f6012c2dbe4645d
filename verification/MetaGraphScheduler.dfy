/** The scheduler object while `run` is in progress: one method for every stretch of `run` and
    `_run_task` without an await, and `run` itself under an arbitrary environment. */
module MetaGraphSchedulers {
  import opened Wrappers
  import opened Dependencies
  import opened Rewiring
  import opened DependencyGraphs
  import opened SchedulerMachine
  import opened SchedulerTheorems

  datatype RunCounts = RunCounts(succeeded: nat, failed: nat, skipped: nat) {
    /** all_succeeded: no failures and no skips. */
    predicate AllSucceeded() {
      failed == 0 && skipped == 0
    }
  }

  /** The local variables of `run`, and which tasks hold the semaphore or have ended. */
  datatype Locals = Locals(
    started: set<TaskId>,
    completed: set<TaskId>,
    failed: set<TaskId>,
    running: map<TaskId, SubAgentTask>,
    holders: set<TaskId>,
    over: set<TaskId>)

  function PhaseFrom(v: Locals, id: TaskId): (p: Phase) {
    if id in v.completed then Completed
    else if id in v.failed then Collected
    else if id in v.over then Ended
    else if id in v.holders then Holding
    else if id in v.running then Waiting
    else if id in v.started then Dropped
    else Unlaunched
  }

  function PhaseMap(ids: set<TaskId>, v: Locals): (m: map<TaskId, Phase>) {
    map id | id in ids :: PhaseFrom(v, id)
  }

  ghost predicate Indexes(byId: map<TaskId, SubAgentTask>, tasks: seq<SubAgentTask>) {
    && DistinctIds(tasks)
    && byId.Keys == IdsOf(tasks)
    && (forall t :: t in tasks ==> byId[t.taskId] == t)
    && (forall id :: id in byId ==> byId[id] in tasks && byId[id].taskId == id)
  }

  ghost predicate Bookkeeping(byId: map<TaskId, SubAgentTask>, v: Locals) {
    && v.holders !! v.over && v.holders + v.over <= v.running.Keys
    && v.completed !! v.failed !! v.running.Keys
    && v.completed + v.failed + v.running.Keys <= v.started <= byId.Keys
    && forall id :: id in v.running ==> v.running[id] == byId[id]
  }

  ghost function StatusMap(byId: map<TaskId, SubAgentTask>): (m: map<TaskId, TaskStatus>)
    reads byId.Values
  {
    map id | id in byId :: byId[id].status
  }

  class MetaGraphScheduler {
    const tasks: seq<SubAgentTask>
    const config: Config
    ghost const byId: map<TaskId, SubAgentTask>
    var dag: DependencyGraph
    var locals: Locals
    var control: Control

    ghost predicate Valid()
      reads this, dag
    {
      Indexes(byId, tasks) && dag.Sound() && dag.tasks == tasks && Bookkeeping(byId, locals)
    }

    /** The abstract state of the run. */
    ghost function View(): (s: State)
      reads this, byId.Values, dag
    {
      State(StatusMap(byId), PhaseMap(byId.Keys, locals), dag.dependsOn, control)
    }

    constructor (tasks: seq<SubAgentTask>, graph: DependencyGraph, config: Config)
      requires graph.Sound() && graph.tasks == tasks
      ensures Valid() && this.tasks == tasks && this.config == config && dag == graph
      ensures Initial(View()) && View().deps == graph.dependsOn
    {
      this.tasks, this.config, dag := tasks, config, graph;
      byId := IndexById(tasks);
      locals := Locals({}, {}, {}, map[], {}, {});
      control := Scheduling;
      new;
      IndexedById(tasks);
    }

    // ----------------------------------------------------- elementary updates

    method SetControl(next: Control)
      modifies this`control
      ensures View() == old(View()).(control := next) && control == next
    {
      control := next;
    }

    method SetLocals(next: Locals)
      requires Valid() && Bookkeeping(byId, next)
      modifies this`locals
      ensures Valid() && locals == next && View() == old(View()).(phase := PhaseMap(byId.Keys, next))
    {
      locals := next;
    }

    method SetStatus(task: SubAgentTask, status: TaskStatus)
      requires Valid() && task in tasks
      modifies task
      ensures Valid() && task.status == status
      ensures View() == old(View()).(status := old(StatusMap(byId))[task.taskId := status])
    {
      ghost var before := StatusMap(byId);
      task.status := status;
      OneStatusChanged(before, task);
    }

    lemma OneStatusChanged(before: map<TaskId, TaskStatus>, task: SubAgentTask)
      requires Indexes(byId, tasks) && task in tasks && before.Keys == byId.Keys
      requires forall id :: id in byId && byId[id] != task ==> before[id] == byId[id].status
      ensures StatusMap(byId) == before[task.taskId := task.status]
    {
    }

    /** Every task with status `from` becomes "skipped". */
    method Skip(from: TaskStatus)
      requires Valid()
      modifies tasks
      ensures Valid()
      ensures View() == old(View()).(status := map id | id in old(StatusMap(byId)) ::
                if old(StatusMap(byId))[id] == from then Skipped else old(StatusMap(byId))[id])
    {
      SkipIndexed(byId, tasks, from);
    }

    lemma InFlightMeansRunning()
      requires Valid()
      ensures InFlight(View()) <==> locals.running.Keys != {}
    {
      if locals.running.Keys != {} {
        var id :| id in locals.running.Keys;
        assert View().phase[id] in {Waiting, Holding, Ended};
      }
    }

    // -------------------------------------------------------- the launch round

    /** One launch round, with the termination guard after it. */
    method LaunchRound()
      requires Valid() && Enabled(config, View(), Launch)
      modifies this`locals, this`control, tasks
      ensures Valid() && View() == Apply(config, old(View()), Launch)
    {
      LaunchReady();
      Guard();
    }

    method LaunchReady()
      requires Valid()
      modifies this`locals
      ensures Valid() && View() == Launched(old(View()))
    {
      ghost var before := View();
      var ready := dag.ReadyTasks(locals.completed);
      ReadyIsFresh(ready);
      var next := StartReady(ready);
      SetLocals(next);
      StartedPhases(locals, ready);
      PhasesAfterLaunch(byId.Keys, old(locals), ready, before);
    }

    /** The loop over the ready tasks. */
    method StartReady(ready: seq<SubAgentTask>) returns (next: Locals)
      requires Valid() && forall t :: t in ready ==> t in tasks
      ensures next == StartedAll(locals, ready) && Bookkeeping(byId, next)
    {
      next := locals;
      for i := 0 to |ready|
        invariant next == StartedAll(locals, ready[..i])
        invariant Bookkeeping(byId, next)
      {
        assert ready[..i + 1] == ready[..i] + [ready[i]];
        assert ready[..i + 1][..i] == ready[..i];
        assert ready[i] in ready && byId[ready[i].taskId] == ready[i];
        next := StartedOne(next, ready[i]);
      }
      assert ready[..|ready|] == ready;
    }

    lemma ReadyIsFresh(ready: seq<SubAgentTask>)
      requires Valid()
      requires forall t :: t in ready <==> t in tasks && dag.IsReady(t, locals.completed)
      ensures IdsOf(ready) == set id | id in byId && View().status[id] == Pending && DepsCompleted(View(), id)
    {
      var s := View();
      assert InPhase(s, Completed) == locals.completed;
      forall id | id in byId ensures id in IdsOf(ready) <==> s.status[id] == Pending && DepsCompleted(s, id) {
        assert byId[id] in ready <==> dag.IsReady(byId[id], locals.completed);
      }
    }

    /** With nothing in flight no further progress is possible: the rest is skipped and the loop ends. */
    method Guard()
      requires Valid()
      modifies this`control, tasks
      ensures Valid()
      ensures View() == if InFlight(old(View())) then old(View()).(control := Suspended)
                        else SkipPending(old(View())).(control := Control.Finished)
    {
      ghost var before := View();
      InFlightMeansRunning();
      if locals.running.Keys == {} {
        Skip(Pending);
        assert View() == SkipPending(before);
        SetControl(Control.Finished);
      } else {
        SetControl(Suspended);
      }
    }

    // ------------------------------------------------------------- sub-agents

    /** async with sema: the task is let in and starts running. */
    method Start(id: TaskId)
      requires Valid() && Enabled(config, View(), Acquire(id))
      modifies this`locals, tasks
      ensures Valid() && View() == Apply(config, old(View()), Acquire(id))
    {
      MovesWaiting(byId, locals, id);
      SetStatus(locals.running[id], Running);
      SetLocals(locals.(holders := locals.holders + {id}));
    }

    /** The end of _run_task: the status is set and the patch, if there is one, is tried. */
    method End(id: TaskId, outcome: Outcome)
      requires Valid() && Enabled(config, View(), Finish(id, outcome))
      modifies this`locals, this`dag, tasks
      ensures Valid() && View() == Apply(config, old(View()), Finish(id, outcome))
    {
      MovesHolding(byId, locals, id);
      SetStatus(locals.running[id], StatusAfter(outcome));
      SetLocals(locals.(holders := locals.holders - {id}, over := locals.over + {id}));
      if outcome.Returned? && outcome.patch.Some? {
        MaybeApplyPatch(outcome.patch.value);
      }
    }

    /** The patch is tried on a clone; the live graph is swapped only when every edit succeeded. */
    method MaybeApplyPatch(patch: DependencyPatch)
      requires Valid()
      modifies this`dag
      ensures Valid() && (dag == old(dag) || fresh(dag))
      ensures View() == old(View()).(deps := Rewired(config, old(dag.dependsOn), Returned(Some(patch))))
      ensures !config.rewiring ==> dag.dependsOn == old(dag.dependsOn)
      ensures config.rewiring ==>
                dag.dependsOn == match Patched(old(dag.dependsOn), patch)
                                 case Some(d) => d
                                 case None => old(dag.dependsOn)
    {
      if !config.rewiring { return; }
      var candidate := dag.Clone();
      var accepted := TryPatch(candidate, patch);
      PatchKeepsSound(dag.dependsOn, patch);
      if accepted {
        SwapGraph(candidate);
      }
    }

    method SwapGraph(candidate: DependencyGraph)
      requires Valid() && candidate.Sound() && candidate.tasks == tasks
      modifies this`dag
      ensures Valid() && dag == candidate && View() == old(View()).(deps := candidate.dependsOn)
    {
      dag := candidate;
    }

    // ------------------------------------------------------- collection rounds

    /** One task out of the done set: popped from running, settled, and put in one of the two sets. */
    method GatherOne(id: TaskId)
      requires Valid() && id in InPhase(View(), Ended)
      modifies this`locals, tasks
      ensures Valid() && View() == Settle(old(View()), {id})
      ensures id in locals.failed <==> old(View()).status[id] != Succeeded
    {
      ghost var before := View();
      MovesEnded(byId, locals, id);
      var task := locals.running[id];
      var succeeded := task.status == Succeeded;
      if task.status == Running { SetStatus(task, Failed); }
      SetLocals(Popped(locals, id, succeeded));
      SettleOne(before, View(), id);
    }

    /** for done_asyncio_task in done_set, in any order. */
    method Gather(done: set<TaskId>) returns (failures: bool)
      requires Valid() && done <= InPhase(View(), Ended)
      modifies this`locals, tasks
      ensures Valid() && View() == Settle(old(View()), done)
      ensures failures <==> exists t :: t in done && t in old(View()).status && old(View()).status[t] != Succeeded
    {
      ghost var s := View();
      var left := done;
      failures := false;
      SettleNone(s);
      assert done - left == {};
      while left != {}
        invariant left <= done && Valid()
        invariant View() == Settle(s, done - left)
        invariant failures <==> exists t :: t in done - left && t in s.status && s.status[t] != Succeeded
      {
        var id :| id in left;
        SettleOneMore(s, done, left, id);
        GatherOne(id);
        if id in locals.failed { failures := true; }
        left := left - {id};
      }
      assert done - left == done;
    }

    /** One collection round: the done set is settled, and a failure may abort the run. */
    method CollectRound(done: set<TaskId>)
      requires Valid() && Enabled(config, View(), Collect(done))
      modifies this`locals, this`control, tasks
      ensures Valid() && View() == Apply(config, old(View()), Collect(done))
    {
      CollectSplits(config, View(), done);
      var failures := Gather(done);
      Conclude(failures);
    }

    method Conclude(failures: bool)
      requires Valid()
      modifies this`control, tasks
      ensures Valid() && View() == Concluded(config, old(View()), failures)
    {
      if config.failFast && failures {
        FailFast();
      } else {
        SetControl(Scheduling);
      }
    }

    /** The rest is skipped; tasks still in flight are cancelled and waited for. */
    method FailFast()
      requires Valid()
      modifies this`control, tasks
      ensures Valid()
      ensures View() == if InFlight(old(View())) then SkipPending(old(View())).(control := Draining)
                        else SkipRunning(SkipPending(old(View()))).(control := Aborted)
    {
      ghost var before := View();
      InFlightMeansRunning();
      Skip(Pending);
      assert View() == SkipPending(before);
      if locals.running.Keys != {} {
        SetControl(Draining);
      } else {
        Skip(Running);
        assert View() == SkipRunning(SkipPending(before));
        SetControl(Aborted);
      }
    }

    /** A cancelled task that was still waiting for the semaphore ends without ever starting. */
    method GiveUp(id: TaskId)
      requires Valid() && Enabled(config, View(), Abandon(id))
      modifies this`locals
      ensures Valid() && View() == Apply(config, old(View()), Abandon(id))
    {
      MovesWaiting(byId, locals, id);
      SetLocals(locals.(over := locals.over + {id}));
    }

    /** After every cancelled task has ended: what is still "running" is skipped, and the loop ends. */
    method WindDown()
      requires Valid() && Enabled(config, View(), WindUp)
      modifies this`locals, this`control, tasks
      ensures Valid() && View() == Apply(config, old(View()), WindUp)
    {
      ghost var before := View();
      Skip(Running);
      assert View() == SkipRunning(before);
      MovesCleared(byId, locals);
      SetLocals(locals.(running := map[], holders := {}, over := {}));
      SetControl(Aborted);
    }

    // ------------------------------------------------------------------ run

    /** While the loop is suspended, any launched sub-agent may move, and any completions may be collected. */
    method EnvironmentStep(ghost first: State) returns (ghost e: Event)
      requires Valid() && Inv(config, first, View()) && control == Suspended
      modifies this`locals, this`dag, this`control, tasks
      ensures Valid() && Enabled(config, old(View()), e) && View() == Apply(config, old(View()), e)
    {
      SuspendedMeansInFlight(first);
      var held, ended := locals.holders, locals.over;
      var queued := locals.running.Keys - held - ended;
      HeldAndEnded();
      if
      case queued != {} && |held| < config.Width() =>
        var id :| id in queued;
        e := Acquire(id);
        Start(id);
      case held != {} =>
        var id :| id in held;
        var outcome: Outcome := *;
        e := Finish(id, outcome);
        End(id, outcome);
      case ended != {} =>
        var done :| done <= ended && done != {};
        e := Collect(done);
        CollectRound(done);
    }

    /** After a failure: cancelled tasks end in any order, then the loop winds up. */
    method DrainStep(ghost first: State) returns (ghost e: Event)
      requires Valid() && Inv(config, first, View()) && control == Draining
      modifies this`locals, this`dag, this`control, tasks
      ensures Valid() && Enabled(config, old(View()), e) && View() == Apply(config, old(View()), e)
    {
      var held := locals.holders;
      var queued := locals.running.Keys - held - locals.over;
      HeldAndEnded();
      if
      case queued != {} =>
        var id :| id in queued;
        e := Abandon(id);
        GiveUp(id);
      case held != {} =>
        var id :| id in held;
        var outcome: Outcome := *;
        e := Finish(id, outcome);
        End(id, outcome);
      case queued == {} && held == {} =>
        e := WindUp;
        WindDown();
    }

    lemma HeldAndEnded()
      requires Valid()
      ensures InPhase(View(), Holding) == locals.holders && InPhase(View(), Ended) == locals.over
      ensures InPhase(View(), Waiting) == locals.running.Keys - locals.holders - locals.over
    {
      PhaseSets(byId, locals);
    }

    lemma SuspendedMeansInFlight(first: State)
      requires Valid() && Inv(config, first, View()) && control == Suspended
      ensures locals.holders != {} || locals.over != {}
              || (locals.running.Keys - locals.holders - locals.over != {} && |locals.holders| < config.Width())
    {
      InFlightMeansRunning();
      if locals.holders == {} && locals.over == {} {
        assert locals.running.Keys - locals.holders - locals.over == locals.running.Keys;
      }
    }

    method Step(ghost first: State) returns (ghost e: Event)
      requires Valid() && Inv(config, first, View()) && !Terminal(control)
      modifies this`locals, this`dag, this`control, tasks
      ensures Valid() && Enabled(config, old(View()), e) && View() == Apply(config, old(View()), e)
    {
      if control == Scheduling {
        e := Launch;
        LaunchRound();
      } else if control == Suspended {
        e := EnvironmentStep(first);
      } else {
        e := DrainStep(first);
      }
    }

    /** run(): whatever order sub-agents start, end and are collected in, and whatever they patch, the
        loop ends, its history is a run of the machine, and the counts are those of the final state. */
    method Run() returns (counts: RunCounts, ghost history: seq<Event>)
      requires Valid() && Initial(View())
      modifies this`locals, this`dag, this`control, tasks
      ensures Valid() && Legal(config, old(View()), history)
      ensures View() == Exec(config, old(View()), history) && Terminal(View().control)
      ensures counts == CountsOf(View())
    {
      history := Loop();
      var succeeded := Count(Succeeded);
      var failed := Count(Failed);
      var skipped := Count(Skipped);
      counts := RunCounts(succeeded, failed, skipped);
    }

    /** while True, until the loop breaks */
    method Loop() returns (ghost history: seq<Event>)
      requires Valid() && Initial(View())
      modifies this`locals, this`dag, this`control, tasks
      ensures Valid() && Legal(config, old(View()), history)
      ensures View() == Exec(config, old(View()), history) && Terminal(View().control)
    {
      ghost var first := View();
      history := [];
      while !Terminal(control)
        invariant Valid() && Legal(config, first, history) && View() == Exec(config, first, history)
        decreases Measure(View())
      {
        RunKeepsInv(config, first, history);
        ghost var before := View();
        ghost var e := Step(first);
        MeasureDecreases(config, before, e);
        OneMoreEvent(config, first, history, e);
        history := history + [e];
      }
    }

    method Count(status: TaskStatus) returns (n: nat)
      requires Valid()
      ensures n == |WithStatus(View(), status)|
    {
      n := CountTasks(tasks, status);
      IdsWithStatus(status);
    }

    lemma IdsWithStatus(status: TaskStatus)
      requires Valid()
      ensures (set t | t in tasks && t.status == status :: t.taskId) == WithStatus(View(), status)
    {
      forall id | id in WithStatus(View(), status) ensures id in set t | t in tasks && t.status == status :: t.taskId {
        assert byId[id] in tasks && byId[id].status == status;
      }
    }
  }

  /** The tasks carry exactly the statuses of this state. */
  ghost predicate Carry(tasks: seq<SubAgentTask>, s: State)
    reads tasks
  {
    s.status.Keys == IdsOf(tasks) && forall t :: t in tasks ==> s.status[t.taskId] == t.status
  }

  /** The counts are the numbers of tasks that carry each status. */
  ghost predicate Tally(r: RunCounts, tasks: seq<SubAgentTask>)
    reads tasks
  {
    && r.succeeded == |set t | t in tasks && t.status == Succeeded :: t.taskId|
    && r.failed == |set t | t in tasks && t.status == Failed :: t.taskId|
    && r.skipped == |set t | t in tasks && t.status == Skipped :: t.taskId|
  }

  ghost function CountsOf(s: State): (r: RunCounts) {
    RunCounts(|WithStatus(s, Succeeded)|, |WithStatus(s, Failed)|, |WithStatus(s, Skipped)|)
  }

  lemma CarriedCounts(tasks: seq<SubAgentTask>, s: State)
    requires Carry(tasks, s)
    ensures Tally(CountsOf(s), tasks)
  {
    CarriedStatus(tasks, s, Succeeded);
    CarriedStatus(tasks, s, Failed);
    CarriedStatus(tasks, s, Skipped);
  }

  lemma CarriedStatus(tasks: seq<SubAgentTask>, s: State, status: TaskStatus)
    requires Carry(tasks, s)
    ensures (set t | t in tasks && t.status == status :: t.taskId) == WithStatus(s, status)
  {
    forall id | id in WithStatus(s, status) ensures id in set t | t in tasks && t.status == status :: t.taskId {
      var t :| t in tasks && t.taskId == id;
    }
  }

  /** A run of the machine, from a state that holds these declared dependencies to its end. */
  ghost predicate CompleteRun(c: Config, deps: DependencyMap, first: State, history: seq<Event>) {
    first.deps == deps && Complete(c, first, history)
  }

  /** run_meta_graph: it fails exactly for duplicate ids, unknown dependencies and cycles. Otherwise it
      goes through a complete run of the machine that begins with the tasks as they were handed in and ends
      with the tasks and the counts as they are returned; so if all tasks were pending and no sub-agent
      failed, every one of them succeeded. */
  method RunMetaGraph(tasks: seq<SubAgentTask>, config: Config)
    returns (r: Result<RunCounts, GraphError>, ghost first: State, ghost history: seq<Event>)
    modifies tasks
    ensures r.Success? <==> DistinctIds(tasks) && Known(DeclaredBy(tasks)) && !Cyclic(DeclaredBy(tasks))
    ensures r.Success? ==>
              && old(Carry(tasks, first)) && CompleteRun(config, DeclaredBy(tasks), first, history)
              && Carry(tasks, Exec(config, first, history)) && r.value == CountsOf(Exec(config, first, history))
              && Tally(r.value, tasks)
    ensures r.Failure? ==> forall t :: t in tasks ==> t.status == old(t.status)
    ensures r.Success? && NeverFails(history) && (forall t :: t in tasks ==> old(t.status) == Pending) ==>
              r.value == RunCounts(|tasks|, 0, 0) && forall t :: t in tasks ==> t.status == Succeeded
  {
    first, history := State(map[], map[], map[], Scheduling), [];
    var graph := DependencyGraph.New(tasks);
    match graph {
      case Failure(e) => r := Failure(e);
      case Success(g) =>
        var counts;
        counts, first, history := RunAndTally(tasks, g, config);
        r := Success(counts);
    }
  }

  /** The promise in terms of the task objects. */
  lemma TasksSucceed(tasks: seq<SubAgentTask>, c: Config, deps: DependencyMap, first: State, history: seq<Event>)
    requires DistinctIds(tasks) && CompleteRun(c, deps, first, history) && NeverFails(history)
    requires Carry(tasks, Exec(c, first, history)) && first.status.Keys == IdsOf(tasks)
    ensures (forall t :: t in tasks ==> first.status[t.taskId] == Pending) ==>
              && CountsOf(Exec(c, first, history)) == RunCounts(|tasks|, 0, 0)
              && forall t :: t in tasks ==> t.status == Succeeded
  {
    if forall t :: t in tasks ==> first.status[t.taskId] == Pending {
      DistinctIdsCount(tasks);
      EverybodySucceeds(c, deps, first, history);
    }
  }

  method RunScheduler(tasks: seq<SubAgentTask>, graph: DependencyGraph, config: Config)
    returns (counts: RunCounts, ghost first: State, ghost history: seq<Event>)
    requires graph.Sound() && graph.tasks == tasks
    modifies tasks
    ensures old(Carry(tasks, first)) && CompleteRun(config, old(graph.dependsOn), first, history)
    ensures Carry(tasks, Exec(config, first, history)) && counts == CountsOf(Exec(config, first, history))
  {
    var scheduler := new MetaGraphScheduler(tasks, graph, config);
    first := scheduler.View();
    CarriesView(scheduler);
    var c;
    c, history := scheduler.Run();
    CarriesView(scheduler);
    counts := c;
  }

  /** Such a run, and what its outcome means for the tasks. */
  method RunAndTally(tasks: seq<SubAgentTask>, graph: DependencyGraph, config: Config)
    returns (counts: RunCounts, ghost first: State, ghost history: seq<Event>)
    requires graph.Sound() && graph.tasks == tasks && DistinctIds(tasks)
    modifies tasks
    ensures old(Carry(tasks, first)) && CompleteRun(config, old(graph.dependsOn), first, history)
    ensures Carry(tasks, Exec(config, first, history)) && counts == CountsOf(Exec(config, first, history))
    ensures Tally(counts, tasks)
    ensures NeverFails(history) && (forall t :: t in tasks ==> first.status[t.taskId] == Pending) ==>
              counts == RunCounts(|tasks|, 0, 0) && forall t :: t in tasks ==> t.status == Succeeded
  {
    counts, first, history := RunScheduler(tasks, graph, config);
    CarriedCounts(tasks, Exec(config, first, history));
    if NeverFails(history) { TasksSucceed(tasks, config, first.deps, first, history); }
  }

  lemma CarriesView(scheduler: MetaGraphScheduler)
    requires scheduler.Valid()
    ensures Carry(scheduler.tasks, scheduler.View())
  {
  }

  /** With every task pending and no sub-agent failing, all are counted as succeeded. */
  lemma EverybodySucceeds(c: Config, deps: DependencyMap, first: State, history: seq<Event>)
    requires CompleteRun(c, deps, first, history) && NeverFails(history)
    requires forall id :: id in first.status ==> first.status[id] == Pending
    ensures var s := Exec(c, first, history);
            && s.status.Keys == first.status.Keys && CountsOf(s) == RunCounts(|first.status.Keys|, 0, 0)
            && forall id :: id in s.status ==> s.status[id] == Succeeded
  {
    var s := Exec(c, first, history);
    NothingEnabledAtTheEnd(c, s);
    AllTasksSucceed(c, first, history);
    assert WithStatus(s, Succeeded) == first.status.Keys;
    assert WithStatus(s, Failed) == {} && WithStatus(s, Skipped) == {};
  }

  lemma NothingEnabledAtTheEnd(c: Config, s: State)
    requires Terminal(s.control)
    ensures forall e :: !Enabled(c, s, e)
  {
  }

  /** all_succeeded is meant to say that every task succeeded. It says so of all tasks but those handed in
      as "running", which a normal end leaves alone and counts nowhere. */
  lemma AllSucceededExactly(c: Config, deps: DependencyMap, first: State, history: seq<Event>)
    requires CompleteRun(c, deps, first, history)
    ensures var s := Exec(c, first, history);
            && s.status.Keys == first.status.Keys
            && (CountsOf(s).AllSucceeded() <==>
                forall t :: t in s.status ==> s.status[t] == Succeeded || (s.status[t] == first.status[t] == Running))
  {
    RunKeepsInv(c, first, history);
    var s := Exec(c, first, history);
    forall t | t in s.status
      ensures s.status[t] in {Succeeded, Failed, Skipped} || s.status[t] == first.status[t] == Running
    {
      assert TaskInv(s.control, first.status[t], s.status[t], s.phase[t]);
    }
    if CountsOf(s).AllSucceeded() {
      assert WithStatus(s, Failed) == {} && WithStatus(s, Skipped) == {};
      forall t | t in s.status ensures s.status[t] != Failed && s.status[t] != Skipped {
        assert t !in WithStatus(s, Failed) && t !in WithStatus(s, Skipped);
      }
    } else {
      var bad := WithStatus(s, Failed) + WithStatus(s, Skipped);
      assert bad != {} by { assert |WithStatus(s, Failed)| + |WithStatus(s, Skipped)| > 0; }
      var t :| t in bad;
      assert s.status[t] == Failed || s.status[t] == Skipped;
    }
  }

  // -------------------------------------------------- the locals, step by step

  lemma PhaseSets(byId: map<TaskId, SubAgentTask>, v: Locals)
    requires Bookkeeping(byId, v)
    ensures InPhaseOf(PhaseMap(byId.Keys, v), Holding) == v.holders
    ensures InPhaseOf(PhaseMap(byId.Keys, v), Ended) == v.over
    ensures InPhaseOf(PhaseMap(byId.Keys, v), Waiting) == v.running.Keys - v.holders - v.over
  {
  }

  /** if task.task_id in started_ids: continue; otherwise it is started. */
  function StartedOne(v: Locals, task: SubAgentTask): (r: Locals) {
    if task.taskId in v.started then v
    else v.(started := v.started + {task.taskId}, running := v.running[task.taskId := task])
  }

  function StartedAll(v: Locals, ready: seq<SubAgentTask>): (r: Locals) {
    if ready == [] then v else StartedOne(StartedAll(v, ready[..|ready| - 1]), ready[|ready| - 1])
  }

  lemma {:induction false} StartedPhases(v: Locals, ready: seq<SubAgentTask>)
    ensures var r := StartedAll(v, ready);
            && r.(started := v.started, running := v.running) == v
            && r.started == v.started + IdsOf(ready)
            && r.running.Keys == v.running.Keys + (IdsOf(ready) - v.started)
  {
    if ready != [] {
      var n := |ready| - 1;
      StartedPhases(v, ready[..n]);
      assert ready == ready[..n] + [ready[n]];
      assert IdsOf(ready) == IdsOf(ready[..n]) + {ready[n].taskId};
    }
  }

  lemma PhasesAfterLaunch(ids: set<TaskId>, v: Locals, ready: seq<SubAgentTask>, before: State)
    requires before.phase == PhaseMap(ids, v) && before.status.Keys == ids
    requires v.completed + v.failed + v.running.Keys + v.holders + v.over <= v.started
    requires IdsOf(ready) == set id | id in ids && before.status[id] == Pending && DepsCompleted(before, id)
    ensures Launched(before) == before.(phase := PhaseMap(ids, StartedAll(v, ready)))
  {
    StartedPhases(v, ready);
    var after := PhaseMap(ids, StartedAll(v, ready));
    forall id | id in ids ensures after[id] == if Fresh(before, id) then Waiting else before.phase[id] {
      FreshIsReady(ids, ready, before, id);
      PhaseAfterStart(v, StartedAll(v, ready), IdsOf(ready), id);
    }
    LaunchedPhases(before, after);
  }

  lemma PhaseAfterStart(v: Locals, w: Locals, ready: set<TaskId>, id: TaskId)
    requires v.completed + v.failed + v.running.Keys + v.holders + v.over <= v.started
    requires w.(started := v.started, running := v.running) == v
    requires w.started == v.started + ready && w.running.Keys == v.running.Keys + (ready - v.started)
    ensures PhaseFrom(w, id) == if id in ready && PhaseFrom(v, id) == Unlaunched then Waiting else PhaseFrom(v, id)
  {
  }

  lemma FreshIsReady(ids: set<TaskId>, ready: seq<SubAgentTask>, before: State, id: TaskId)
    requires id in ids && before.phase.Keys == before.status.Keys == ids
    requires IdsOf(ready) == set i | i in ids && before.status[i] == Pending && DepsCompleted(before, i)
    ensures Fresh(before, id) <==> id in IdsOf(ready) && before.phase[id] == Unlaunched
  {
  }

  lemma LaunchedPhases(before: State, after: map<TaskId, Phase>)
    requires after.Keys == before.phase.Keys
    requires forall id :: id in after ==> after[id] == if Fresh(before, id) then Waiting else before.phase[id]
    ensures Launched(before) == before.(phase := after)
  {
    assert Launched(before).phase == after;
  }

  lemma MovesWaiting(byId: map<TaskId, SubAgentTask>, v: Locals, id: TaskId)
    requires Bookkeeping(byId, v) && id in InPhaseOf(PhaseMap(byId.Keys, v), Waiting)
    ensures id in v.running && v.running[id] == byId[id]
    ensures Bookkeeping(byId, v.(holders := v.holders + {id})) && Bookkeeping(byId, v.(over := v.over + {id}))
    ensures PhaseMap(byId.Keys, v.(holders := v.holders + {id})) == PhaseMap(byId.Keys, v)[id := Holding]
    ensures PhaseMap(byId.Keys, v.(over := v.over + {id})) == PhaseMap(byId.Keys, v)[id := Ended]
  {
  }

  lemma MovesHolding(byId: map<TaskId, SubAgentTask>, v: Locals, id: TaskId)
    requires Bookkeeping(byId, v) && id in InPhaseOf(PhaseMap(byId.Keys, v), Holding)
    ensures id in v.running && v.running[id] == byId[id]
    ensures var r := v.(holders := v.holders - {id}, over := v.over + {id});
            Bookkeeping(byId, r) && PhaseMap(byId.Keys, r) == PhaseMap(byId.Keys, v)[id := Ended]
  {
  }

  function Popped(v: Locals, id: TaskId, succeeded: bool): (r: Locals) {
    v.(running := v.running - {id}, over := v.over - {id},
       completed := if succeeded then v.completed + {id} else v.completed,
       failed := if succeeded then v.failed else v.failed + {id})
  }

  lemma MovesEnded(byId: map<TaskId, SubAgentTask>, v: Locals, id: TaskId)
    requires Bookkeeping(byId, v) && id in InPhaseOf(PhaseMap(byId.Keys, v), Ended)
    ensures id in v.running && v.running[id] == byId[id] && id !in v.failed
    ensures Bookkeeping(byId, Popped(v, id, true)) && Bookkeeping(byId, Popped(v, id, false))
    ensures PhaseMap(byId.Keys, Popped(v, id, true)) == PhaseMap(byId.Keys, v)[id := Completed]
    ensures PhaseMap(byId.Keys, Popped(v, id, false)) == PhaseMap(byId.Keys, v)[id := Collected]
  {
  }

  lemma MovesCleared(byId: map<TaskId, SubAgentTask>, v: Locals)
    requires Bookkeeping(byId, v)
    requires InPhaseOf(PhaseMap(byId.Keys, v), Waiting) == InPhaseOf(PhaseMap(byId.Keys, v), Holding) == {}
    ensures var r := v.(running := map[], holders := {}, over := {});
            var before := PhaseMap(byId.Keys, v);
            && Bookkeeping(byId, r)
            && PhaseMap(byId.Keys, r) == map t | t in before :: if before[t] == Ended then Dropped else before[t]
  {
    var before := PhaseMap(byId.Keys, v);
    forall t | t in byId ensures before[t] != Waiting && before[t] != Holding {
      assert t !in InPhaseOf(before, Waiting) && t !in InPhaseOf(before, Holding);
    }
  }

  /** What follows the bookkeeping of a collection round. */
  function Concluded(c: Config, s: State, failures: bool): (r: State) {
    if !(c.failFast && failures) then s.(control := Scheduling)
    else if InFlight(s) then SkipPending(s).(control := Draining)
    else SkipRunning(SkipPending(s)).(control := Aborted)
  }

  lemma CollectSplits(c: Config, s: State, done: set<TaskId>)
    requires Enabled(c, s, Collect(done))
    ensures Apply(c, s, Collect(done)) ==
              Concluded(c, Settle(s, done), exists t :: t in done && t in s.status && s.status[t] != Succeeded)
  {
  }

  lemma SettleOne(s: State, r: State, id: TaskId)
    requires s.phase.Keys == s.status.Keys && id in s.phase
    requires r == s.(status := if s.status[id] == Running then s.status[id := Failed] else s.status,
                     phase := s.phase[id := if s.status[id] == Succeeded then Completed else Collected])
    ensures r == Settle(s, {id})
  {
    assert r.status == Settle(s, {id}).status;
    assert r.phase == Settle(s, {id}).phase;
  }

  lemma SettleNone(s: State)
    requires s.phase.Keys == s.status.Keys
    ensures Settle(s, {}) == s
  {
    assert Settle(s, {}).status == s.status && Settle(s, {}).phase == s.phase;
  }

  lemma SettleOneMore(s: State, done: set<TaskId>, left: set<TaskId>, id: TaskId)
    requires s.phase.Keys == s.status.Keys && left <= done <= InPhase(s, Ended) && id in left
    ensures id in InPhase(Settle(s, done - left), Ended)
    ensures Settle(s, done - left).status[id] == s.status[id]
    ensures done - (left - {id}) == done - left + {id}
    ensures Settle(Settle(s, done - left), {id}) == Settle(s, done - (left - {id}))
  {
    assert id in InPhase(s, Ended);
    var one := Settle(Settle(s, done - left), {id});
    var both := Settle(s, done - left + {id});
    assert one.status == both.status;
    assert one.phase == both.phase;
  }

  // ----------------------------------------------------------- task lists

  method SkipIndexed(ghost byId: map<TaskId, SubAgentTask>, tasks: seq<SubAgentTask>, from: TaskStatus)
    requires Indexes(byId, tasks)
    modifies tasks
    ensures StatusMap(byId) == map id | id in old(StatusMap(byId)) ::
              if old(StatusMap(byId))[id] == from then Skipped else old(StatusMap(byId))[id]
  {
    ghost var before := StatusMap(byId);
    SkipTasks(tasks, from);
    forall id | id in byId ensures StatusMap(byId)[id] == if before[id] == from then Skipped else before[id] {
      assert byId[id] in tasks;
    }
  }

  method SkipTasks(tasks: seq<SubAgentTask>, from: TaskStatus)
    requires DistinctIds(tasks)
    modifies tasks
    ensures forall t :: t in tasks ==> t.status == if old(t.status) == from then Skipped else old(t.status)
  {
    for i := 0 to |tasks|
      invariant forall t :: t in tasks[..i] ==> t.status == if old(t.status) == from then Skipped else old(t.status)
      invariant forall t :: t in tasks[i..] ==> t.status == old(t.status)
    {
      assert tasks[i] in tasks[i..] && tasks[i] !in tasks[i + 1..] && tasks[i] !in tasks[..i];
      assert tasks[..i + 1] == tasks[..i] + [tasks[i]];
      if tasks[i].status == from { tasks[i].status := Skipped; }
    }
    assert tasks[..|tasks|] == tasks;
  }

  /** sum(1 for t in tasks if t.status == status) */
  method CountTasks(tasks: seq<SubAgentTask>, status: TaskStatus) returns (n: nat)
    requires DistinctIds(tasks)
    ensures n == |set t | t in tasks && t.status == status :: t.taskId|
  {
    n := 0;
    ghost var counted: set<TaskId> := {};
    for i := 0 to |tasks|
      invariant n == |counted|
      invariant forall id :: id in counted <==> exists k ::
          0 <= k < i && tasks[k].taskId == id && tasks[k].status == status
    {
      if tasks[i].status == status {
        n := n + 1;
        counted := counted + {tasks[i].taskId};
      }
    }
    SameIds(tasks, status, counted);
  }

  lemma SameIds(tasks: seq<SubAgentTask>, status: TaskStatus, counted: set<TaskId>)
    requires forall id :: id in counted <==> exists k ::
        0 <= k < |tasks| && tasks[k].taskId == id && tasks[k].status == status
    ensures counted == set t | t in tasks && t.status == status :: t.taskId
  {
    var ids := set t | t in tasks && t.status == status :: t.taskId;
    forall id | id in ids ensures id in counted {
      var t :| t in tasks && t.status == status && t.taskId == id;
      var k :| 0 <= k < |tasks| && tasks[k] == t;
    }
  }

  /** remove_edge for every removal, then add_edge for every addition, stopping at the first that fails. */
  method TryPatch(candidate: DependencyGraph, patch: DependencyPatch) returns (accepted: bool)
    requires candidate.Valid()
    modifies candidate
    ensures candidate.Valid() && candidate.tasks == old(candidate.tasks)
    ensures accepted <==> Patched(old(candidate.dependsOn), patch).Some?
    ensures accepted ==> candidate.dependsOn == Patched(old(candidate.dependsOn), patch).value
  {
    ghost var d := candidate.dependsOn;
    var removals, additions := patch.removeEdges, patch.addEdges;
    for i := 0 to |removals|
      invariant candidate.Valid() && candidate.tasks == old(candidate.tasks)
      invariant WithoutEdges(d, removals) == WithoutEdges(candidate.dependsOn, removals[i..])
    {
      assert removals[i..][1..] == removals[i + 1..];
      candidate.RemoveEdge(removals[i].from, removals[i].to);
    }
    for i := 0 to |additions|
      invariant candidate.Valid() && candidate.tasks == old(candidate.tasks)
      invariant Patched(d, patch) == WithEdges(candidate.dependsOn, additions[i..])
    {
      assert additions[i..][1..] == additions[i + 1..];
      var r := candidate.AddEdge(additions[i].from, additions[i].to);
      if r.Failure? { return false; }
    }
    return true;
  }

  function IndexById(tasks: seq<SubAgentTask>): (m: map<TaskId, SubAgentTask>) {
    if tasks == [] then map[]
    else
      var last := tasks[|tasks| - 1];
      IndexById(tasks[..|tasks| - 1])[last.taskId := last]
  }

  lemma {:induction false} IndexedById(tasks: seq<SubAgentTask>)
    requires DistinctIds(tasks)
    ensures Indexes(IndexById(tasks), tasks)
  {
    if tasks != [] {
      var n := |tasks| - 1;
      IndexedById(tasks[..n]);
      assert tasks == tasks[..n] + [tasks[n]];
    }
  }
}
