/** What single events mean for whole runs: patches take effect and last, every outcome decides what becomes
    of its task, and a launch takes every task that is ready. */
module SchedulerLaws {
  import opened Wrappers
  import opened Dependencies
  import opened Rewiring
  import opened DependencyGraphs
  import opened SchedulerMachine
  import opened SchedulerTheorems

  // ------------------------------------------------------------------- launches

  /** A launch takes exactly the pending tasks that were never launched and whose every dependency in the
      live graph has completed. */
  lemma LaunchTakesAllReady(c: Config, s0: State, s: State, t: TaskId)
    requires Inv(c, s0, s) && Enabled(c, s, Launch) && t in s.phase
    ensures var r := Apply(c, s, Launch);
            t in r.phase
            && (s.phase[t] == Unlaunched ==>
                  (r.phase[t] == Waiting <==>
                     s.status[t] == Pending && forall y :: y in s.deps[t] ==> y in s.phase && s.phase[y] == Completed)
                  && (r.phase[t] == Waiting || r.phase[t] == Unlaunched))
            && (s.phase[t] != Unlaunched ==> r.phase[t] == s.phase[t])
  {
    if s.phase[t] == Unlaunched {
      assert DepsCompleted(s, t) <==> forall y :: y in s.deps[t] ==> y in s.phase && s.phase[y] == Completed;
    }
  }

  /** A waiting task is let in exactly while fewer than max_parallel tasks, and never fewer than one, hold the
      semaphore. */
  lemma LetInExactly(c: Config, s: State, t: TaskId)
    requires s.phase.Keys == s.status.Keys && s.control == Suspended && t in s.phase
    ensures Enabled(c, s, Acquire(t)) <==>
            s.phase[t] == Waiting
            && |set u | u in s.phase && s.phase[u] == Holding| < (if c.maxParallel >= 1 then c.maxParallel else 1)
  {
    assert InPhase(s, Holding) == set u | u in s.phase && s.phase[u] == Holding;
  }

  /** At most max_parallel tasks are in flight, or one if that number is below one. */
  lemma WidthIsKept(c: Config, s0: State, es: seq<Event>)
    requires Initial(s0) && Legal(c, s0, es)
    ensures var s := Exec(c, s0, es);
            |set u | u in s.phase && s.phase[u] == Holding| <= (if c.maxParallel >= 1 then c.maxParallel else 1)
  {
    RunKeepsInv(c, s0, es);
    var s := Exec(c, s0, es);
    assert InPhase(s, Holding) == set u | u in s.phase && s.phase[u] == Holding;
  }

  // --------------------------------------------------------------------- patches

  /** The end of a sub-agent with a patch, under rewiring: if the added ids are known and the old graph
      without the removed edges, united with the added ones, is acyclic, that union is the live graph from
      now on; otherwise the live graph stays. m is any map that relates what the union relates. */
  lemma PatchTakesEffect(c: Config, s0: State, s: State, t: TaskId, p: DependencyPatch, m: DependencyMap)
    requires Inv(c, s0, s) && Enabled(c, s, Finish(t, Returned(Some(p)))) && c.rewiring
    requires EdgesKnown(s.deps, p.addEdges) ==> IsUnion(m, WithoutEdges(s.deps, p.removeEdges), p.addEdges)
    ensures var r := Apply(c, s, Finish(t, Returned(Some(p)))).deps;
            if EdgesKnown(s.deps, p.addEdges) && !Cyclic(m) then
              IsUnion(r, WithoutEdges(s.deps, p.removeEdges), p.addEdges) && Known(r) && !Cyclic(r)
            else r == s.deps
  {
    PatchAcceptedExactly(s.deps, p, m);
    PatchKeepsSound(s.deps, p);
    if Patched(s.deps, p).Some? { AcceptedIsUnion(WithoutEdges(s.deps, p.removeEdges), p.addEdges); }
  }

  /** Every other event, and every patch without rewiring, leaves the live graph alone. */
  lemma OnlyPatchesRewire(c: Config, s: State, e: Event)
    requires Enabled(c, s, e) && !(c.rewiring && e.Finish? && e.outcome.Returned? && e.outcome.patch.Some?)
    ensures Apply(c, s, e).deps == s.deps
  {
  }

  predicate RemovesEdge(e: Event, edge: Edge) {
    e.Finish? && e.outcome.Returned? && e.outcome.patch.Some? && edge in e.outcome.patch.value.removeEdges
  }

  /** A dependency lasts through every event that does not remove it by name. */
  lemma DependencyLasts(c: Config, s0: State, s: State, e: Event, x: TaskId, y: TaskId)
    requires Inv(c, s0, s) && Enabled(c, s, e) && HasDep(s.deps, x, y) && !RemovesEdge(e, Edge(y, x))
    ensures HasDep(Apply(c, s, e).deps, x, y)
  {
    if c.rewiring && e.Finish? && e.outcome.Returned? && e.outcome.patch.Some? {
      var p := e.outcome.patch.value;
      var base := WithoutEdges(s.deps, p.removeEdges);
      WithoutEdgesCounts(s.deps, p.removeEdges, x, y);
      assert y in multiset(base[x]);
      PatchKeepsSound(s.deps, p);
      if Patched(s.deps, p).Some? { AcceptedIsUnion(base, p.addEdges); }
    } else {
      OnlyPatchesRewire(c, s, e);
    }
  }

  ghost predicate DependsAt(c: Config, s0: State, es: seq<Event>, i: nat, x: TaskId, y: TaskId)
    requires Legal(c, s0, es) && i <= |es|
  {
    HasDep(StateAt(c, s0, es, i).deps, x, y)
  }

  lemma DependencyNext(c: Config, s0: State, es: seq<Event>, i: nat, x: TaskId, y: TaskId)
    requires Initial(s0) && Legal(c, s0, es) && i < |es|
    requires DependsAt(c, s0, es, i, x, y) && !RemovesEdge(es[i], Edge(y, x))
    ensures DependsAt(c, s0, es, i + 1, x, y)
  {
    LegalPrefix(c, s0, es, i);
    RunKeepsInv(c, s0, es[..i]);
    NextState(c, s0, es, i);
    DependencyLasts(c, s0, StateAt(c, s0, es, i), es[i], x, y);
  }

  lemma {:induction false} DependencyLastsUntil(c: Config, s0: State, es: seq<Event>, i: nat, j: nat,
                                                x: TaskId, y: TaskId)
    requires Initial(s0) && Legal(c, s0, es) && i <= j <= |es| && DependsAt(c, s0, es, i, x, y)
    requires forall k :: i <= k < j ==> !RemovesEdge(es[k], Edge(y, x))
    ensures DependsAt(c, s0, es, j, x, y)
    decreases j
  {
    if i < j {
      DependencyLastsUntil(c, s0, es, i, j - 1, x, y);
      DependencyNext(c, s0, es, j - 1, x, y);
    }
  }

  /** A dependency that an accepted patch adds is waited for: a task launched later, with no patch in between
      that removes the dependency again, is launched when it has succeeded. */
  lemma AddedDependencyIsAwaited(c: Config, s0: State, es: seq<Event>, i: nat, j: nat, t: TaskId,
                                 p: DependencyPatch, m: DependencyMap, added: Edge)
    requires Initial(s0) && Legal(c, s0, es) && i < j < |es| && c.rewiring
    requires es[i] == Finish(t, Returned(Some(p))) && added in p.addEdges
    requires var d := StateAt(c, s0, es, i).deps;
             EdgesKnown(d, p.addEdges) && IsUnion(m, WithoutEdges(d, p.removeEdges), p.addEdges) && !Cyclic(m)
    requires forall k :: i < k < j ==> !RemovesEdge(es[k], added)
    requires LaunchedAt(c, s0, es, added.to, j)
    ensures SucceededIn(StateAt(c, s0, es, j), added.from)
  {
    RunKeepsInv(c, s0, es[..i]);
    PatchTakesEffect(c, s0, StateAt(c, s0, es, i), t, p, m);
    NextState(c, s0, es, i);
    var d := StateAt(c, s0, es, i).deps;
    WithoutEdgesShrinks(d, p.removeEdges);
    assert HasDep(StateAt(c, s0, es, i + 1).deps, added.to, added.from);
    DependencyLastsUntil(c, s0, es, i + 1, j, added.to, added.from);
    DependenciesWereMet(c, s0, es, added.to, j);
  }

  // ------------------------------------------------------------------- fail-fast

  predicate Stopping(s: State) {
    s.control == Draining || s.control == Aborted
  }

  /** Some task of the done set did not succeed. */
  predicate Fails(s: State, done: set<TaskId>) {
    exists t :: t in done && t in s.status && s.status[t] != Succeeded
  }

  /** A collection stops the run exactly if fail-fast is on and a collected task did not succeed; then nothing
      is pending any more, and the run is over at once if nothing else is in flight. */
  lemma FailureStops(c: Config, s: State, done: set<TaskId>)
    requires Enabled(c, s, Collect(done))
    ensures var r := Apply(c, s, Collect(done));
            && (Stopping(r) <==> c.failFast && Fails(s, done))
            && (r.control == Scheduling <==> !(c.failFast && Fails(s, done)))
            && (Stopping(r) ==> forall u :: u in r.status ==> r.status[u] != Pending)
            && (r.control == Aborted <==>
                  Stopping(r) && forall u :: u in s.phase && u !in done ==> s.phase[u] !in {Waiting, Holding, Ended})
  {
    var next := Settle(s, done);
    assert forall u :: u in done && u in s.phase ==> next.phase[u] in {Completed, Collected};
    assert forall u :: u in s.phase && u !in done ==> next.phase[u] == s.phase[u];
  }

  predicate WindsDown(e: Event) {
    e.Finish? || e.Abandon? || e.WindUp?
  }

  /** From then on nothing is launched, let in or collected. */
  lemma StoppingStays(c: Config, s: State, e: Event)
    requires Enabled(c, s, e) && Stopping(s)
    ensures Stopping(Apply(c, s, e)) && WindsDown(e)
  {
  }

  ghost predicate StoppingAt(c: Config, s0: State, es: seq<Event>, i: nat)
    requires Legal(c, s0, es) && i <= |es|
  {
    Stopping(StateAt(c, s0, es, i))
  }

  lemma StoppingNext(c: Config, s0: State, es: seq<Event>, i: nat)
    requires Legal(c, s0, es) && i < |es| && StoppingAt(c, s0, es, i)
    ensures StoppingAt(c, s0, es, i + 1) && WindsDown(es[i])
  {
    NextState(c, s0, es, i);
    StoppingStays(c, StateAt(c, s0, es, i), es[i]);
  }

  lemma {:induction false} StoppedForGood(c: Config, s0: State, es: seq<Event>, i: nat, j: nat)
    requires Legal(c, s0, es) && i <= j <= |es| && StoppingAt(c, s0, es, i)
    ensures StoppingAt(c, s0, es, j)
    decreases j
  {
    if i < j {
      StoppedForGood(c, s0, es, i, j - 1);
      StoppingNext(c, s0, es, j - 1);
    }
  }

  predicate SkippedAside(s: State, t: TaskId) {
    t in s.status && s.status[t] == Skipped && t in s.phase && s.phase[t] != Holding
  }

  lemma SkippedStep(c: Config, s: State, e: Event, t: TaskId)
    requires Enabled(c, s, e) && Stopping(s) && SkippedAside(s, t)
    ensures SkippedAside(Apply(c, s, e), t)
  {
    if e.Finish? { assert e.task in InPhase(s, Holding); }
  }

  /** At this point the run is stopping and the task is skipped. */
  ghost predicate AsideAt(c: Config, s0: State, es: seq<Event>, i: nat, t: TaskId)
    requires Legal(c, s0, es) && i <= |es|
  {
    StoppingAt(c, s0, es, i) && SkippedAside(StateAt(c, s0, es, i), t)
  }

  lemma SkippedNext(c: Config, s0: State, es: seq<Event>, i: nat, t: TaskId)
    requires Legal(c, s0, es) && i < |es| && AsideAt(c, s0, es, i, t)
    ensures AsideAt(c, s0, es, i + 1, t)
  {
    StoppingNext(c, s0, es, i);
    NextState(c, s0, es, i);
    SkippedStep(c, StateAt(c, s0, es, i), es[i], t);
  }

  lemma {:induction false} SkippedStays(c: Config, s0: State, es: seq<Event>, i: nat, j: nat, t: TaskId)
    requires Legal(c, s0, es) && i <= j <= |es| && AsideAt(c, s0, es, i, t)
    ensures AsideAt(c, s0, es, j, t)
    decreases j
  {
    if i < j {
      SkippedStays(c, s0, es, i, j - 1, t);
      SkippedNext(c, s0, es, j - 1, t);
    }
  }

  /** Fail-fast, over whole runs: once a task that did not succeed is collected, no task is launched or let in
      any more, every task that was pending ends skipped, and the run ends aborted. */
  lemma FailFastStopsTheRun(c: Config, s0: State, es: seq<Event>, i: nat, done: set<TaskId>)
    requires Complete(c, s0, es) && c.failFast && i < |es|
    requires es[i] == Collect(done) && Fails(StateAt(c, s0, es, i), done)
    ensures Exec(c, s0, es).control == Aborted
    ensures forall j :: i < j < |es| ==> es[j].Finish? || es[j].Abandon? || es[j].WindUp?
    ensures forall t :: t in StateAt(c, s0, es, i).status && StateAt(c, s0, es, i).status[t] == Pending ==>
              t in Exec(c, s0, es).status && Exec(c, s0, es).status[t] == Skipped
  {
    var s := StateAt(c, s0, es, i);
    assert es[..|es|] == es;
    NextState(c, s0, es, i);
    FailureStops(c, s, done);
    StoppedForGood(c, s0, es, i + 1, |es|);
    forall j | i < j < |es| ensures es[j].Finish? || es[j].Abandon? || es[j].WindUp? {
      StoppedForGood(c, s0, es, i + 1, j);
      StoppingNext(c, s0, es, j);
    }
    forall t | t in s.status && s.status[t] == Pending
      ensures t in Exec(c, s0, es).status && Exec(c, s0, es).status[t] == Skipped
    {
      RunKeepsInv(c, s0, es[..i]);
      PendingIsSkipped(c, s0, s, done, t);
      SkippedStays(c, s0, es, i + 1, |es|, t);
    }
  }

  lemma PendingIsSkipped(c: Config, s0: State, s: State, done: set<TaskId>, t: TaskId)
    requires Inv(c, s0, s) && Enabled(c, s, Collect(done)) && c.failFast && Fails(s, done)
    requires t in s.status && s.status[t] == Pending
    ensures SkippedAside(Apply(c, s, Collect(done)), t)
  {
    assert TaskInv(s.control, s0.status[t], s.status[t], s.phase[t]);
  }

  // -------------------------------------------------------------------- outcomes

  /** How a task stands after it ended with this outcome. */
  predicate Decided(s: State, t: TaskId, o: Outcome) {
    && t in s.phase && t in s.status
    && match o
       case Returned(_) => s.status[t] == Succeeded && s.phase[t] in {Ended, Completed, Dropped}
       case Raised => s.status[t] == Failed && s.phase[t] in {Ended, Collected, Dropped}
       case Interrupted =>
         || (s.phase[t] == Ended && s.status[t] == Running)
         || (s.phase[t] == Collected && s.status[t] == Failed)
         || (s.phase[t] == Dropped && s.status[t] == Skipped)
  }

  lemma DecidedStays(c: Config, s: State, e: Event, t: TaskId, o: Outcome)
    requires Enabled(c, s, e) && Decided(s, t, o)
    ensures Decided(Apply(c, s, e), t, o)
  {
    match e
    case Acquire(u) => assert u in InPhase(s, Waiting);
    case Finish(u, _) => assert u in InPhase(s, Holding);
    case Abandon(u) => assert u in InPhase(s, Waiting);
    case Collect(done) => if t in done { assert t in InPhase(s, Ended); }
    case _ =>
  }

  lemma {:induction false} DecidedFrom(c: Config, s0: State, es: seq<Event>, i: nat, j: nat, t: TaskId, o: Outcome)
    requires Initial(s0) && Legal(c, s0, es) && i < j <= |es| && es[i] == Finish(t, o)
    ensures Decided(StateAt(c, s0, es, j), t, o)
    decreases j
  {
    NextState(c, s0, es, j - 1);
    if i < j - 1 {
      DecidedFrom(c, s0, es, i, j - 1, t, o);
      DecidedStays(c, StateAt(c, s0, es, j - 1), es[j - 1], t, o);
    }
  }

  /** What a sub-agent's end means when the run is over: one that returned has succeeded, one that raised has
      failed, and one that was interrupted has failed if it was collected and was skipped if the run was
      wound down first. */
  lemma OutcomeDecides(c: Config, s0: State, es: seq<Event>, i: nat, t: TaskId, o: Outcome)
    requires Complete(c, s0, es) && i < |es| && es[i] == Finish(t, o)
    ensures var s := Exec(c, s0, es);
            && t in s.status && t in s.phase
            && (o.Returned? ==> s.status[t] == Succeeded)
            && (o.Raised? ==> s.status[t] == Failed)
            && (o.Interrupted? ==> s.status[t] == (if s.phase[t] == Collected then Failed else Skipped))
  {
    DecidedFrom(c, s0, es, i, |es|, t, o);
    assert es[..|es|] == es;
    RunKeepsInv(c, s0, es);
    var s := Exec(c, s0, es);
    assert TaskInv(s.control, s0.status[t], s.status[t], s.phase[t]);
  }
}
