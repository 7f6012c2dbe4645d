/** What holds of every run of the scheduling loop: it cannot get stuck, it ends, it launches each
    task at most once and never before its dependencies, and it spreads failures exactly. */
module SchedulerTheorems {
  import opened FiniteSets
  import opened Wrappers
  import opened Dependencies
  import opened Rewiring
  import opened DependencyGraphs
  import opened SchedulerMachine

  // -------------------------------------------------- progress and termination

  /** Until the loop has ended, something can always happen that is no failure. */
  lemma NoDeadlock(c: Config, s0: State, s: State) returns (e: Event)
    requires Inv(c, s0, s) && !Terminal(s.control)
    ensures Enabled(c, s, e) && (e.Finish? ==> e.outcome.Returned?)
  {
    match s.control
    case Scheduling => e := Launch;
    case Suspended => e := SomeCompletion(c, s0, s);
    case Draining =>
      if t :| t in InPhase(s, Waiting) {
        e := Abandon(t);
      } else if t :| t in InPhase(s, Holding) {
        e := Finish(t, Returned(None));
      } else {
        e := WindUp;
      }
  }

  lemma SomeCompletion(c: Config, s0: State, s: State) returns (e: Event)
    requires Inv(c, s0, s) && s.control == Suspended
    ensures Enabled(c, s, e) && (e.Finish? ==> e.outcome.Returned?)
  {
    var t :| t in s.phase && s.phase[t] in {Waiting, Holding, Ended};
    if InPhase(s, Holding) != {} {
      var u :| u in InPhase(s, Holding);
      e := Finish(u, Returned(None));
    } else if s.phase[t] == Ended {
      assert t in InPhase(s, Ended);
      e := Collect({t});
    } else {
      assert t !in InPhase(s, Holding);
      assert t in InPhase(s, Waiting);
      e := Acquire(t);
    }
  }

  /** What one event does to the bookkeeping of one task. */
  function NextPhase(s: State, e: Event, t: TaskId): (p: Phase)
    requires t in s.phase && t in s.status
  {
    match s.phase[t]
    case Unlaunched => if e.Launch? && Fresh(s, t) then Waiting else Unlaunched
    case Waiting => if e == Acquire(t) then Holding else if e == Abandon(t) then Ended else Waiting
    case Holding => if e.Finish? && e.task == t then Ended else Holding
    case Ended =>
      if e.Collect? && t in e.done then (if s.status[t] == Succeeded then Completed else Collected)
      else if e.WindUp? then Dropped else Ended
    case _ => s.phase[t]
  }

  lemma PhaseStep(c: Config, s: State, e: Event, t: TaskId)
    requires Enabled(c, s, e) && t in s.phase
    ensures var r := Apply(c, s, e); t in r.phase && r.phase[t] == NextPhase(s, e, t)
  {
    match e
    case Acquire(u) => assert u in InPhase(s, Waiting);
    case Finish(u, _) => assert u in InPhase(s, Holding);
    case Collect(done) => if t in done { assert t in InPhase(s, Ended); }
    case Abandon(u) => assert u in InPhase(s, Waiting);
    case _ =>
  }

  lemma PhasesStep(c: Config, s: State, e: Event)
    requires Enabled(c, s, e)
    ensures var r := Apply(c, s, e);
            r.phase.Keys == s.phase.Keys && forall t :: t in s.phase ==> r.phase[t] == NextPhase(s, e, t)
  {
    forall t | t in s.phase ensures t in Apply(c, s, e).phase && Apply(c, s, e).phase[t] == NextPhase(s, e, t) {
      PhaseStep(c, s, e, t);
    }
    match e
    case Collect(done) =>
    case _ =>
  }

  /** The tasks in `moved` leave phase a for phase b, and nothing else changes. */
  lemma Transfer(p: map<TaskId, Phase>, q: map<TaskId, Phase>, moved: set<TaskId>, a: Phase, b: Phase)
    requires p.Keys == q.Keys && a != b
    requires forall t :: t in moved ==> t in p && p[t] == a && q[t] == b
    requires forall t :: t in p && t !in moved ==> q[t] == p[t]
    ensures |InPhaseOf(p, a)| == |InPhaseOf(q, a)| + |moved|
    ensures |InPhaseOf(q, b)| == |InPhaseOf(p, b)| + |moved|
    ensures forall o :: o != a && o != b ==> InPhaseOf(q, o) == InPhaseOf(p, o)
  {
    Split(InPhaseOf(p, a), InPhaseOf(q, a), moved);
    Split(InPhaseOf(q, b), InPhaseOf(p, b), moved);
    forall o | o != a && o != b ensures InPhaseOf(q, o) == InPhaseOf(p, o) {
      Same(InPhaseOf(q, o), InPhaseOf(p, o));
    }
  }

  lemma Split(whole: set<TaskId>, a: set<TaskId>, b: set<TaskId>)
    requires forall t :: t in whole <==> t in a || t in b
    requires forall t :: t in a ==> t !in b
    ensures |whole| == |a| + |b|
  {
    assert whole == a + b;
  }

  lemma Same(a: set<TaskId>, b: set<TaskId>)
    requires forall t :: t in a <==> t in b
    ensures a == b
  {
  }

  /** The tasks an event moves, the phase they leave and the one they enter; a collection moves
      tasks to two phases and is treated apart. */
  lemma EventTransfers(c: Config, s: State, e: Event, moved: set<TaskId>, a: Phase, b: Phase)
    requires Enabled(c, s, e) && !e.Collect?
    requires match e
             case Launch => a == Unlaunched && b == Waiting && moved == set t | t in s.phase && Fresh(s, t)
             case Acquire(t) => a == Waiting && b == Holding && moved == {t}
             case Finish(t, _) => a == Holding && b == Ended && moved == {t}
             case Abandon(t) => a == Waiting && b == Ended && moved == {t}
             case _ => a == Ended && b == Dropped && moved == InPhase(s, Ended)
    ensures var r := Apply(c, s, e);
            && |InPhase(s, a)| == |InPhase(r, a)| + |moved| && |InPhase(r, b)| == |InPhase(s, b)| + |moved|
            && forall o :: o != a && o != b ==> InPhase(r, o) == InPhase(s, o)
  {
    PhasesStep(c, s, e);
    if e.Acquire? || e.Abandon? { assert e.task in InPhase(s, Waiting); }
    if e.Finish? { assert e.task in InPhase(s, Holding); }
    Transfer(s.phase, Apply(c, s, e).phase, moved, a, b);
  }

  /** Two groups leave phase a at once, one for b and one for b2. */
  lemma TransferTwo(p: map<TaskId, Phase>, q: map<TaskId, Phase>, ok: set<TaskId>, bad: set<TaskId>, a: Phase,
                    b: Phase, b2: Phase)
    requires p.Keys == q.Keys && a != b && a != b2 && b != b2 && ok !! bad
    requires forall t :: t in ok ==> t in p && p[t] == a && q[t] == b
    requires forall t :: t in bad ==> t in p && p[t] == a && q[t] == b2
    requires forall t :: t in p && t !in ok && t !in bad ==> q[t] == p[t]
    ensures |InPhaseOf(p, a)| == |InPhaseOf(q, a)| + |ok| + |bad|
    ensures |InPhaseOf(q, b)| == |InPhaseOf(p, b)| + |ok| && |InPhaseOf(q, b2)| == |InPhaseOf(p, b2)| + |bad|
    ensures forall o :: o != a && o != b && o != b2 ==> InPhaseOf(q, o) == InPhaseOf(p, o)
  {
    var mid := map t | t in p :: if t in ok then b else p[t];
    Transfer(p, mid, ok, a, b);
    Transfer(mid, q, bad, a, b2);
  }

  lemma CollectTransfers(c: Config, s: State, done: set<TaskId>)
    requires Enabled(c, s, Collect(done))
    ensures var r := Apply(c, s, Collect(done));
            && |InPhase(r, Ended)| == |InPhase(s, Ended)| - |done| && |done| >= 1
            && |InPhase(r, Completed)| + |InPhase(r, Collected)|
                == |InPhase(s, Completed)| + |InPhase(s, Collected)| + |done|
            && forall o :: o != Ended && o != Completed && o != Collected ==> InPhase(r, o) == InPhase(s, o)
  {
    PhasesStep(c, s, Collect(done));
    assert forall t :: t in done ==> t in InPhase(s, Ended);
    PartsTransfer(s.phase, Apply(c, s, Collect(done)).phase, done, set t | t in done && s.status[t] == Succeeded);
  }

  lemma PartsTransfer(p: map<TaskId, Phase>, q: map<TaskId, Phase>, done: set<TaskId>, ok: set<TaskId>)
    requires p.Keys == q.Keys && ok <= done && done != {}
    requires forall t :: t in done ==> t in p && p[t] == Ended && q[t] == if t in ok then Completed else Collected
    requires forall t :: t in p && t !in done ==> q[t] == p[t]
    ensures |InPhaseOf(q, Ended)| == |InPhaseOf(p, Ended)| - |done| && |done| >= 1
    ensures |InPhaseOf(q, Completed)| + |InPhaseOf(q, Collected)|
        == |InPhaseOf(p, Completed)| + |InPhaseOf(p, Collected)| + |done|
    ensures forall o :: o != Ended && o != Completed && o != Collected ==> InPhaseOf(q, o) == InPhaseOf(p, o)
  {
    TransferTwo(p, q, ok, done - ok, Ended, Completed, Collected);
    Split(done, ok, done - ok);
    var t :| t in done;
    Split(done, {t}, done - {t});
  }

  function Weight(s: State): (w: nat) {
    4 * |InPhase(s, Unlaunched)| + 3 * |InPhase(s, Waiting)| + 2 * |InPhase(s, Holding)| + |InPhase(s, Ended)|
  }

  function Measure(s: State): (m: nat) {
    2 * Weight(s) + if s.control == Scheduling || s.control == Draining then 1 else 0
  }

  lemma MeasureDecreases(c: Config, s: State, e: Event)
    requires Enabled(c, s, e)
    ensures Measure(Apply(c, s, e)) < Measure(s)
  {
    match e
    case Launch => EventTransfers(c, s, e, (set t | t in s.phase && Fresh(s, t)), Unlaunched, Waiting);
    case Acquire(t) => EventTransfers(c, s, e, {t}, Waiting, Holding);
    case Finish(t, _) => EventTransfers(c, s, e, {t}, Holding, Ended);
    case Collect(done) => CollectTransfers(c, s, done);
    case Abandon(t) => EventTransfers(c, s, e, {t}, Waiting, Ended);
    case WindUp => EventTransfers(c, s, e, InPhase(s, Ended), Ended, Dropped);
  }

  /** A run over n tasks has at most 8n + 1 events, whatever the sub-agents do. */
  lemma {:induction false} RunsAreShort(c: Config, s0: State, es: seq<Event>)
    requires Initial(s0) && Legal(c, s0, es)
    ensures |es| + Measure(Exec(c, s0, es)) <= 8 * |s0.status| + 1
  {
    if es == [] {
      assert InPhase(s0, Unlaunched) == s0.status.Keys;
      assert |s0.status.Keys| == |s0.status|;
      assert InPhase(s0, Waiting) == InPhase(s0, Holding) == InPhase(s0, Ended) == {};
    } else {
      var front := es[..|es| - 1];
      RunsAreShort(c, s0, front);
      MeasureDecreases(c, Exec(c, s0, front), es[|es| - 1]);
    }
  }

  function Launches(es: seq<Event>): (n: nat) {
    if es == [] then 0 else Launches(es[..|es| - 1]) + if es[|es| - 1].Launch? then 1 else 0
  }

  function Collections(es: seq<Event>): (n: nat) {
    if es == [] then 0 else Collections(es[..|es| - 1]) + if es[|es| - 1].Collect? then 1 else 0
  }

  lemma {:induction false} RoundsAlternate(c: Config, s0: State, es: seq<Event>)
    requires Initial(s0) && Legal(c, s0, es)
    ensures var s := Exec(c, s0, es);
            && Launches(es) == Collections(es) + (if Odd(s.control) then 1 else 0)
            && Collections(es) <= |InPhase(s, Completed)| + |InPhase(s, Collected)|
  {
    if es != [] {
      var front := es[..|es| - 1];
      RoundsAlternate(c, s0, front);
      RoundStep(c, Exec(c, s0, front), es[|es| - 1]);
    }
  }

  predicate Odd(control: Control) {
    control == Suspended || control == Control.Finished
  }

  /** Launches and collections alternate, and a collection takes in at least one task. */
  lemma RoundStep(c: Config, s: State, e: Event)
    requires Enabled(c, s, e)
    ensures var r := Apply(c, s, e);
            && (e.Launch? ==> !Odd(s.control) && Odd(r.control))
            && (e.Collect? ==> Odd(s.control) && !Odd(r.control))
            && (!e.Launch? && !e.Collect? ==> Odd(s.control) == Odd(r.control))
            && |InPhase(r, Completed)| + |InPhase(r, Collected)| >=
                 |InPhase(s, Completed)| + |InPhase(s, Collected)| + if e.Collect? then 1 else 0
  {
    match e
    case Launch => EventTransfers(c, s, e, (set t | t in s.phase && Fresh(s, t)), Unlaunched, Waiting);
    case Acquire(t) => EventTransfers(c, s, e, {t}, Waiting, Holding);
    case Finish(t, _) => EventTransfers(c, s, e, {t}, Holding, Ended);
    case Collect(done) => CollectTransfers(c, s, done);
    case Abandon(t) => EventTransfers(c, s, e, {t}, Waiting, Ended);
    case WindUp => EventTransfers(c, s, e, InPhase(s, Ended), Ended, Dropped);
  }

  /** The scheduling loop launches at most n + 1 times, that is, runs at most n + 1 rounds. */
  lemma RoundsAreBounded(c: Config, s0: State, es: seq<Event>)
    requires Initial(s0) && Legal(c, s0, es)
    ensures Launches(es) <= |s0.status| + 1
  {
    RoundsAlternate(c, s0, es);
    RunKeepsInv(c, s0, es);
    var s := Exec(c, s0, es);
    var taken := InPhase(s, Completed) + InPhase(s, Collected);
    assert |taken| == |InPhase(s, Completed)| + |InPhase(s, Collected)|;
    SubsetSize(taken, s0.status.Keys);
  }

  // ------------------------------------------------------------- launch safety

  /** Event number i launches t. */
  ghost predicate LaunchedAt(c: Config, s0: State, es: seq<Event>, t: TaskId, i: nat)
    requires Initial(s0) && Legal(c, s0, es)
  {
    i < |es| && es[i] == Launch && Fresh(StateAt(c, s0, es, i), t)
  }

  /** Every prefix of a run is a run, and each event was enabled when it happened. */
  lemma {:induction false} LegalPrefix(c: Config, s0: State, es: seq<Event>, i: nat)
    requires Legal(c, s0, es) && i <= |es|
    ensures Legal(c, s0, es[..i])
    ensures i < |es| ==> Enabled(c, Exec(c, s0, es[..i]), es[i]) && Legal(c, s0, es[..i + 1])
                         && Exec(c, s0, es[..i + 1]) == Apply(c, Exec(c, s0, es[..i]), es[i])
    decreases |es|
  {
    if i == |es| {
      assert es[..i] == es;
    } else {
      var front := es[..|es| - 1];
      LegalPrefix(c, s0, front, i);
      assert front[..i] == es[..i] && es[..i + 1][..i] == es[..i];
      if i < |front| {
        assert front[..i + 1] == es[..i + 1];
      } else {
        assert es[..i + 1] == es && es[..i] == front;
      }
    }
  }

  /** The state before event number i. */
  ghost function StateAt(c: Config, s0: State, es: seq<Event>, i: nat): (s: State)
    requires Legal(c, s0, es) && i <= |es|
    ensures Legal(c, s0, es[..i])
    ensures i < |es| ==> Enabled(c, s, es[i])
  {
    LegalPrefix(c, s0, es, i);
    Exec(c, s0, es[..i])
  }

  lemma NextState(c: Config, s0: State, es: seq<Event>, i: nat)
    requires Legal(c, s0, es) && i < |es|
    ensures StateAt(c, s0, es, i + 1) == Apply(c, StateAt(c, s0, es, i), es[i])
  {
    LegalPrefix(c, s0, es, i);
  }

  predicate Left(s: State, t: TaskId) {
    t in s.phase && s.phase[t] != Unlaunched
  }

  /** A task is past its launch exactly if some event launched it, and no two events did. */
  lemma LaunchedExactlyOnce(c: Config, s0: State, es: seq<Event>, t: TaskId)
    requires Initial(s0) && Legal(c, s0, es)
    ensures Left(Exec(c, s0, es), t) <==> exists i :: LaunchedAt(c, s0, es, t, i)
    ensures forall i, j :: LaunchedAt(c, s0, es, t, i) && LaunchedAt(c, s0, es, t, j) ==> i == j
  {
    assert es[..|es|] == es;
    if Left(Exec(c, s0, es), t) {
      var i := LaunchOf(c, s0, es, |es|, t);
    }
    if i: nat :| LaunchedAt(c, s0, es, t, i) {
      LeftAfterLaunch(c, s0, es, i, |es|, t);
    }
    forall i: nat, j: nat | LaunchedAt(c, s0, es, t, i) && LaunchedAt(c, s0, es, t, j) ensures i == j {
      if i < j { LeftAfterLaunch(c, s0, es, i, j, t); }
      if j < i { LeftAfterLaunch(c, s0, es, j, i, t); }
    }
  }

  lemma {:induction false} LaunchOf(c: Config, s0: State, es: seq<Event>, n: nat, t: TaskId) returns (i: nat)
    requires Initial(s0) && Legal(c, s0, es) && n <= |es| && Left(StateAt(c, s0, es, n), t)
    ensures LaunchedAt(c, s0, es, t, i)
  {
    if n == 0 {
      assert false;
    } else {
      StepLeaves(c, StateAt(c, s0, es, n - 1), es[n - 1], t);
      NextState(c, s0, es, n - 1);
      if Left(StateAt(c, s0, es, n - 1), t) {
        i := LaunchOf(c, s0, es, n - 1, t);
      } else {
        i := n - 1;
      }
    }
  }

  lemma LeftAfterLaunch(c: Config, s0: State, es: seq<Event>, i: nat, j: nat, t: TaskId)
    requires Initial(s0) && Legal(c, s0, es) && LaunchedAt(c, s0, es, t, i) && i < j <= |es|
    ensures Left(StateAt(c, s0, es, j), t)
  {
    StepLeaves(c, StateAt(c, s0, es, i), es[i], t);
    NextState(c, s0, es, i);
    LeftStays(c, s0, es, i + 1, j, t);
  }

  lemma {:induction false} LeftStays(c: Config, s0: State, es: seq<Event>, i: nat, j: nat, t: TaskId)
    requires Legal(c, s0, es) && i <= j <= |es| && Left(StateAt(c, s0, es, i), t)
    ensures Left(StateAt(c, s0, es, j), t)
    decreases j - i
  {
    if i < j {
      StepLeaves(c, StateAt(c, s0, es, i), es[i], t);
      NextState(c, s0, es, i);
      LeftStays(c, s0, es, i + 1, j, t);
    }
  }

  lemma StepLeaves(c: Config, s: State, e: Event, t: TaskId)
    requires Enabled(c, s, e)
    ensures Left(Apply(c, s, e), t) <==> Left(s, t) || (e == Launch && Fresh(s, t))
  {
    KeysStay(c, s, e);
    if t in s.phase { PhaseStep(c, s, e, t); }
  }

  lemma KeysStay(c: Config, s: State, e: Event)
    requires Enabled(c, s, e)
    ensures Apply(c, s, e).phase.Keys == s.phase.Keys
  {
    PhasesStep(c, s, e);
  }

  /** A completed task stays completed, and its status stays "success". */
  lemma CompletedForGood(c: Config, s0: State, es: seq<Event>, i: nat, t: TaskId)
    requires Initial(s0) && Legal(c, s0, es) && i <= |es|
    requires t in InPhase(StateAt(c, s0, es, i), Completed)
    ensures t in Exec(c, s0, es).status && Exec(c, s0, es).status[t] == Succeeded
  {
    RunKeepsInv(c, s0, es);
    StaysCompleted(c, s0, es, i, t);
    var s := Exec(c, s0, es);
    assert TaskInv(s.control, s0.status[t], s.status[t], s.phase[t]);
  }

  lemma {:induction false} StaysCompleted(c: Config, s0: State, es: seq<Event>, i: nat, t: TaskId)
    requires Initial(s0) && Legal(c, s0, es) && i <= |es|
    requires t in InPhase(StateAt(c, s0, es, i), Completed)
    ensures t in InPhase(Exec(c, s0, es), Completed)
    decreases |es| - i
  {
    if i < |es| {
      PhaseStep(c, StateAt(c, s0, es, i), es[i], t);
      NextState(c, s0, es, i);
      StaysCompleted(c, s0, es, i + 1, t);
    } else {
      assert es[..i] == es;
    }
  }

  /** The moment a task is launched, all its dependencies in the graph then live have succeeded;
      they are still successful whenever the task is let through the semaphore, and the semaphore
      never holds more than its width. Later patches change none of this. */
  lemma InvokedAfterDependencies(c: Config, s0: State, es: seq<Event>, t: TaskId)
    requires Initial(s0) && Legal(c, s0, es) && Enabled(c, Exec(c, s0, es), Acquire(t))
    ensures exists i :: LaunchedAt(c, s0, es, t, i) && DependenciesMet(c, s0, es, t, i)
    ensures |InPhase(Apply(c, Exec(c, s0, es), Acquire(t)), Holding)| <= c.Width()
  {
    var s := Exec(c, s0, es);
    LaunchedExactlyOnce(c, s0, es, t);
    assert Left(s, t);
    var i :| LaunchedAt(c, s0, es, t, i);
    DependenciesWereMet(c, s0, es, t, i);
    RunKeepsInv(c, s0, es);
    AcquireKeepsInv(c, s0, s, t);
  }

  lemma DependenciesWereMet(c: Config, s0: State, es: seq<Event>, t: TaskId, i: nat)
    requires Initial(s0) && Legal(c, s0, es) && LaunchedAt(c, s0, es, t, i)
    ensures DependenciesMet(c, s0, es, t, i)
  {
    var before := StateAt(c, s0, es, i);
    RunKeepsInv(c, s0, es[..i]);
    forall y | y in before.deps[t] ensures SucceededIn(before, y) && SucceededIn(Exec(c, s0, es), y) {
      assert y in InPhase(before, Completed);
      assert TaskInv(before.control, s0.status[y], before.status[y], before.phase[y]);
      CompletedForGood(c, s0, es, i, y);
    }
  }

  predicate SucceededIn(s: State, y: TaskId) {
    y in s.status && s.status[y] == Succeeded
  }

  ghost predicate DependenciesMet(c: Config, s0: State, es: seq<Event>, t: TaskId, i: nat)
    requires Initial(s0) && Legal(c, s0, es) && i <= |es|
  {
    var before := StateAt(c, s0, es, i);
    && t in before.deps
    && forall y :: y in before.deps[t] ==> SucceededIn(before, y) && SucceededIn(Exec(c, s0, es), y)
  }

  /** run_graph is invoked at most once for every task. */
  lemma InvokedOnce(c: Config, s0: State, es: seq<Event>, i: nat, j: nat, t: TaskId)
    requires Initial(s0) && Legal(c, s0, es)
    requires i < j < |es| && es[i] == Acquire(t)
    ensures es[j] != Acquire(t)
  {
    var r := StateAt(c, s0, es, i);
    var next := StateAt(c, s0, es, i + 1);
    NextState(c, s0, es, i);
    assert next.phase[t] == Holding;
    PastTheSemaphore(c, s0, es, i + 1, j, t);
  }

  predicate Through(s: State, t: TaskId) {
    t in s.phase && s.phase[t] != Unlaunched && s.phase[t] != Waiting
  }

  lemma {:induction false} PastTheSemaphore(c: Config, s0: State, es: seq<Event>, i: nat, j: nat, t: TaskId)
    requires Initial(s0) && Legal(c, s0, es)
    requires i <= j < |es| && Through(StateAt(c, s0, es, i), t)
    ensures Through(StateAt(c, s0, es, j), t) && es[j] != Acquire(t)
    decreases j - i
  {
    if i < j {
      PhaseStep(c, StateAt(c, s0, es, i), es[i], t);
      NextState(c, s0, es, i);
      assert Through(StateAt(c, s0, es, i + 1), t);
      PastTheSemaphore(c, s0, es, i + 1, j, t);
    }
  }

  // -------------------------------------------------------- what a run ends with

  /** Tasks no dependent can ever wait for successfully: failed ones, and ones never pending. */
  function Roots(s0: State, s: State): (r: set<TaskId>) {
    InPhase(s, Collected) + set t | t in s0.status && s0.status[t] != Pending
  }

  /** When the loop runs dry, every task it skipped has, in the graph then live, a transitive
      dependency that failed or was not pending in the first place. Acyclicity is what excludes
      skipped tasks that merely wait for each other. */
  lemma SkippedHasReason(c: Config, s0: State, es: seq<Event>, t: TaskId)
    requires Initial(s0) && Legal(c, s0, es)
    requires var s := Exec(c, s0, es);
             s.control == Control.Finished && t in s.status && t in s0.status && s0.status[t] == Pending
                 && s.status[t] == Skipped
    ensures var s := Exec(c, s0, es);
            exists r :: r in Roots(s0, s) && DependsOn(s.deps, t, r)
  {
    RunKeepsInv(c, s0, es);
    var s := Exec(c, s0, es);
    var stuck := set x | x in s.phase && s.phase[x] == Unlaunched && s0.status[x] == Pending;
    var roots := Roots(s0, s);
    forall x | x in stuck ensures WaitsOn(s.deps, x, stuck + roots) {
      assert Incomplete(s, x);
      var y :| y in s.phase.Keys - InPhase(s, Completed) && HasDep(s.deps, x, y);
      assert TaskInv(s.control, s0.status[y], s.status[y], s.phase[y]);
      assert y in stuck + roots;
    }
    assert TaskInv(s.control, s0.status[t], s.status[t], s.phase[t]);
    ReachesRoot(s.deps, stuck, roots, t);
  }

  ghost predicate NeverFails(es: seq<Event>) {
    forall e :: e in es && e.Finish? ==> e.outcome.Returned?
  }

  lemma {:induction false} NothingCollected(c: Config, s0: State, es: seq<Event>)
    requires Initial(s0) && Legal(c, s0, es) && NeverFails(es)
    ensures AllWell(Exec(c, s0, es))
  {
    if es != [] {
      var front := es[..|es| - 1];
      NothingCollected(c, s0, front);
      RunKeepsInv(c, s0, front);
      var s, e := Exec(c, s0, front), es[|es| - 1];
      assert e in es;
      NothingFails(c, s0, s, e);
    }
  }

  ghost predicate AllWell(s: State) {
    && (forall t :: t in s.phase ==> s.phase[t] != Collected)
    && (forall t :: t in s.phase && s.phase[t] == Ended ==> SucceededIn(s, t))
    && (Active(s.control) || s.control == Control.Finished)
  }

  lemma NothingFails(c: Config, s0: State, s: State, e: Event)
    requires Inv(c, s0, s) && Enabled(c, s, e) && AllWell(s) && (e.Finish? ==> e.outcome.Returned?)
    ensures AllWell(Apply(c, s, e))
  {
    StaysActive(c, s, e);
    PhasesStep(c, s, e);
    var r := Apply(c, s, e);
    forall t | t in r.phase
      ensures r.phase[t] != Collected && (r.phase[t] == Ended ==> SucceededIn(r, t))
    {
      assert r.phase[t] == NextPhase(s, e, t);
      TaskStaysWell(c, s, e, t);
    }
  }

  lemma StaysActive(c: Config, s: State, e: Event)
    requires Enabled(c, s, e) && AllWell(s)
    ensures Active(Apply(c, s, e).control) || Apply(c, s, e).control == Control.Finished
  {
    if e.Collect? { DoneIsWell(s, e.done); }
  }

  lemma TaskStaysWell(c: Config, s: State, e: Event, t: TaskId)
    requires Enabled(c, s, e) && AllWell(s) && (e.Finish? ==> e.outcome.Returned?) && t in s.phase
    ensures NextPhase(s, e, t) != Collected
    ensures NextPhase(s, e, t) == Ended ==> SucceededIn(Apply(c, s, e), t)
  {
    if e.Collect? { DoneIsWell(s, e.done); }
    if NextPhase(s, e, t) == Ended { EndedIsWell(c, s, e, t); }
  }

  lemma DoneIsWell(s: State, done: set<TaskId>)
    requires AllWell(s) && done <= InPhase(s, Ended) && s.phase.Keys == s.status.Keys
    ensures forall t :: t in done ==> s.status[t] == Succeeded
  {
    forall t | t in done ensures s.status[t] == Succeeded { assert SucceededIn(s, t); }
  }

  lemma EndedIsWell(c: Config, s: State, e: Event, t: TaskId)
    requires Enabled(c, s, e) && AllWell(s) && (e.Finish? ==> e.outcome.Returned?)
    requires t in s.phase && NextPhase(s, e, t) == Ended
    ensures SucceededIn(Apply(c, s, e), t)
  {
    if s.phase[t] == Ended { assert SucceededIn(s, t); }
  }

  /** Progress under live rewiring: for every order of events and every sequence of accepted or
      discarded patches, a run in which no sub-agent fails and that cannot go on has ended with
      every task successful, provided all tasks were pending at the start. */
  lemma AllTasksSucceed(c: Config, s0: State, es: seq<Event>)
    requires Initial(s0) && Legal(c, s0, es) && NeverFails(es)
    requires forall t :: t in s0.status ==> s0.status[t] == Pending
    requires forall e :: !Enabled(c, Exec(c, s0, es), e)
    ensures var s := Exec(c, s0, es);
            s.control == Control.Finished && s.status.Keys == s0.status.Keys
            && forall t :: t in s.status ==> s.status[t] == Succeeded
  {
    RunKeepsInv(c, s0, es);
    NothingCollected(c, s0, es);
    var s := Exec(c, s0, es);
    if !Terminal(s.control) { var e := NoDeadlock(c, s0, s); }
    forall t | t in s.status ensures s.status[t] == Succeeded {
      assert TaskInv(s.control, s0.status[t], s.status[t], s.phase[t]);
      if s.phase[t] == Unlaunched {
        SkippedHasReason(c, s0, es, t);
      }
    }
  }

  /** Without rewiring the graph is the declared one, and whatever was launched had completed dependencies. */
  lemma {:induction false} FixedGraph(c: Config, s0: State, es: seq<Event>)
    requires Initial(s0) && Legal(c, s0, es) && !c.rewiring
    ensures var s := Exec(c, s0, es);
            && s.deps == s0.deps
            && forall t, y :: Left(s, t) && HasDep(s0.deps, t, y) ==> y in InPhase(s, Completed)
  {
    if es != [] {
      var front := es[..|es| - 1];
      FixedGraph(c, s0, front);
      var s, e := Exec(c, s0, front), es[|es| - 1];
      var r := Apply(c, s, e);
      forall t, y | Left(r, t) && HasDep(s0.deps, t, y) ensures y in InPhase(r, Completed) {
        StepLeaves(c, s, e, t);
        if Left(s, t) {
          assert y in InPhase(s, Completed);
        }
        assert y in InPhase(s, Completed);
        PhaseStep(c, s, e, y);
      }
    }
  }

  lemma {:induction false} PathCompleted(s: State, d: DependencyMap, p: seq<TaskId>)
    requires forall t, y :: Left(s, t) && HasDep(d, t, y) ==> y in InPhase(s, Completed)
    requires Path(d, p) && Left(s, p[0]) && |p| >= 2
    ensures p[|p| - 1] in InPhase(s, Completed)
    decreases |p|
  {
    assert Link(d, p, 0);
    if |p| > 2 {
      var q := p[1..];
      forall i | 0 <= i < |q| - 1 ensures Link(d, q, i) {
        assert Link(d, p, i + 1);
      }
      PathCompleted(s, d, q);
    }
  }

  /** Exact failure propagation: without fail-fast and rewiring, a pending task ends up skipped if
      and only if some proper transitive dependency failed, or was not pending at the start. */
  lemma SkippedExactly(c: Config, s0: State, es: seq<Event>, t: TaskId)
    requires Initial(s0) && Legal(c, s0, es) && !c.rewiring && !c.failFast
    requires Exec(c, s0, es).control == Control.Finished
    requires t in s0.status && s0.status[t] == Pending
    ensures var s := Exec(c, s0, es);
            && s.status.Keys == s0.status.Keys
            && (s.status[t] == Skipped <==>
                  exists u :: u in s0.status && DependsOn(s0.deps, t, u)
                      && (s.status[u] == Failed || s0.status[u] != Pending))
  {
    RunKeepsInv(c, s0, es);
    FixedGraph(c, s0, es);
    var s := Exec(c, s0, es);
    assert TaskInv(s.control, s0.status[t], s.status[t], s.phase[t]);
    if s.status[t] == Skipped {
      SkippedHasReason(c, s0, es, t);
      var r :| r in Roots(s0, s) && DependsOn(s.deps, t, r);
      assert r in s.phase && TaskInv(s.control, s0.status[r], s.status[r], s.phase[r]);
    } else if u :| u in s0.status && DependsOn(s0.deps, t, u) && (s.status[u] == Failed || s0.status[u] != Pending) {
      var p :| PathFromTo(s0.deps, p, t, u);
      PathCompleted(s, s0.deps, p);
      assert TaskInv(s.control, s0.status[u], s.status[u], s.phase[u]);
    }
  }

  // ------------------------------------------------------------- the counts

  function WithStatus(s: State, x: TaskStatus): (r: set<TaskId>) {
    set t | t in s.status && s.status[t] == x
  }

  /** succeeded + failed + skipped is the number of tasks after an abort always, and after a normal
      end exactly if no task was handed in with status "running". */
  lemma CountsAddUp(c: Config, s0: State, es: seq<Event>)
    requires Initial(s0) && Legal(c, s0, es)
    requires Terminal(Exec(c, s0, es).control)
    ensures var s := Exec(c, s0, es);
            |WithStatus(s, Succeeded)| + |WithStatus(s, Failed)| + |WithStatus(s, Skipped)| == |s0.status.Keys|
            <==> s.control == Aborted || WithStatus(s0, Running) == {}
  {
    RunKeepsInv(c, s0, es);
    var s := Exec(c, s0, es);
    forall t | t in s.status
      ensures s.status[t] != Pending
          && (s.status[t] == Running <==> s.control == Control.Finished && s0.status[t] == Running)
    {
      assert TaskInv(s.control, s0.status[t], s.status[t], s.phase[t]);
    }
    EveryStatus(s);
    assert s.status.Keys == s0.status.Keys;
    if s.control == Control.Finished {
      Same(WithStatus(s, Running), WithStatus(s0, Running));
    } else {
      Same(WithStatus(s, Running), {});
    }
  }

  ghost predicate Complete(c: Config, s0: State, es: seq<Event>) {
    Initial(s0) && Legal(c, s0, es) && Terminal(Exec(c, s0, es).control)
  }

  ghost predicate AddUp(c: Config, s0: State, es: seq<Event>)
    requires Complete(c, s0, es)
  {
    var s := Exec(c, s0, es);
    |WithStatus(s, Succeeded)| + |WithStatus(s, Failed)| + |WithStatus(s, Skipped)| == |s0.status.Keys|
  }

  lemma OneMoreEvent(c: Config, s0: State, es: seq<Event>, e: Event)
    requires Legal(c, s0, es) && Enabled(c, Exec(c, s0, es), e)
    ensures Legal(c, s0, es + [e]) && Exec(c, s0, es + [e]) == Apply(c, Exec(c, s0, es), e)
  {
    assert (es + [e])[..|es|] == es;
  }

  /** Every run without a failure can be completed without one. */
  lemma {:induction false} CompleteWell(c: Config, s0: State, es: seq<Event>) returns (whole: seq<Event>)
    requires Initial(s0) && Legal(c, s0, es) && NeverFails(es)
    ensures Complete(c, s0, whole) && NeverFails(whole)
    decreases Measure(Exec(c, s0, es))
  {
    RunKeepsInv(c, s0, es);
    var s := Exec(c, s0, es);
    if Terminal(s.control) {
      whole := es;
    } else {
      var e := NoDeadlock(c, s0, s);
      MeasureDecreases(c, s, e);
      OneMoreEvent(c, s0, es, e);
      whole := CompleteWell(c, s0, es + [e]);
    }
  }

  /** The three counts add up at the end of every run exactly if no task is handed in as "running". */
  lemma CountsAlwaysAddUpExactly(c: Config, s0: State)
    requires Initial(s0)
    ensures (forall es :: Complete(c, s0, es) ==> AddUp(c, s0, es)) <==> WithStatus(s0, Running) == {}
  {
    forall es | Complete(c, s0, es)
      ensures AddUp(c, s0, es) <==> Exec(c, s0, es).control == Aborted || WithStatus(s0, Running) == {}
    {
      CountsAddUp(c, s0, es);
    }
    var none: seq<Event> := [];
    var well := CompleteWell(c, s0, none);
    NothingCollected(c, s0, well);
    assert Exec(c, s0, well).control == Control.Finished;
    if WithStatus(s0, Running) != {} { assert !AddUp(c, s0, well); }
  }

  /** The run in which they do not: a single task handed in as "running" is never launched, and the first
      round ends the run with all three counts at zero. */
  lemma RunningTaskIsCountedNowhere(c: Config, s0: State, t: TaskId)
    requires Initial(s0) && s0.status == map[t := Running]
    ensures Legal(c, s0, [Launch])
    ensures var s := Exec(c, s0, [Launch]);
            && s.control == Control.Finished && s.status == s0.status
            && WithStatus(s, Succeeded) == WithStatus(s, Failed) == WithStatus(s, Skipped) == {}
  {
    var none: seq<Event> := [];
    assert [Launch][..0] == none;
    var next := Launched(s0);
    assert s0.phase.Keys == {t} && !Fresh(s0, t) && next.phase[t] == Unlaunched;
    assert !InFlight(next);
    assert Exec(c, s0, [Launch]) == AfterLaunch(s0);
  }

  lemma EveryStatus(s: State)
    requires forall t :: t in s.status ==> s.status[t] != Pending
    ensures |WithStatus(s, Succeeded)| + |WithStatus(s, Failed)| + |WithStatus(s, Skipped)|
        + |WithStatus(s, Running)| == |s.status.Keys|
  {
    Quarters(s.status.Keys, WithStatus(s, Succeeded), WithStatus(s, Failed), WithStatus(s, Skipped),
             WithStatus(s, Running));
  }

  lemma Quarters(whole: set<TaskId>, a: set<TaskId>, b: set<TaskId>, c: set<TaskId>, d: set<TaskId>)
    requires whole == a + b + c + d && a !! b !! c !! d
    ensures |a| + |b| + |c| + |d| == |whole|
  {
    Split(a + b, a, b);
    Split(a + b + c, a + b, c);
    Split(whole, a + b + c, d);
  }
}
