/** The graph class of the meta-graph scheduler: Kahn validation, edge mutation with rollback,
    cloning and the ready query. */
module DependencyGraphs {
  import opened FiniteSets
  import opened Wrappers
  import opened Dependencies
  import opened Rewiring

  datatype TaskStatus = Pending | Running | Succeeded | Failed | Skipped

  /** A unit of work; only the scheduler changes its status. */
  class SubAgentTask {
    const taskId: TaskId
    const dependsOn: seq<TaskId>
    var status: TaskStatus

    constructor (taskId: TaskId, dependsOn: seq<TaskId>)
      ensures this.taskId == taskId && this.dependsOn == dependsOn && status == Pending
    {
      this.taskId := taskId;
      this.dependsOn := dependsOn;
      status := Pending;
    }
  }

  datatype GraphError = DuplicateTaskIds | UnknownDependency | CycleDetected | UnknownTask

  ghost predicate DistinctIds(tasks: seq<SubAgentTask>) {
    forall i, j :: 0 <= i < j < |tasks| ==> tasks[i].taskId != tasks[j].taskId
  }

  function IdsOf(tasks: seq<SubAgentTask>): (ids: set<TaskId>) {
    set t | t in tasks :: t.taskId
  }

  lemma {:induction false} DistinctIdsCount(tasks: seq<SubAgentTask>)
    requires DistinctIds(tasks)
    ensures |IdsOf(tasks)| == |tasks|
  {
    if tasks != [] {
      var n := |tasks| - 1;
      DistinctIdsCount(tasks[..n]);
      assert tasks == tasks[..n] + [tasks[n]];
      assert IdsOf(tasks) == IdsOf(tasks[..n]) + {tasks[n].taskId};
    }
  }

  // --------------------------------------------- bookkeeping of Kahn's algorithm

  /** How many entries of the list are not yet processed. */
  function Unprocessed(deps: seq<TaskId>, processed: set<TaskId>): (n: nat) {
    if deps == [] then 0
    else (if deps[0] in processed then 0 else 1) + Unprocessed(deps[1..], processed)
  }

  lemma {:induction false} UnprocessedZero(deps: seq<TaskId>, processed: set<TaskId>)
    ensures Unprocessed(deps, processed) == 0 <==> forall y :: y in deps ==> y in processed
    ensures Unprocessed(deps, {}) == |deps|
  {
    if deps != [] {
      assert deps == [deps[0]] + deps[1..];
      UnprocessedZero(deps[1..], processed);
    }
  }

  lemma {:induction false} UnprocessedStep(deps: seq<TaskId>, processed: set<TaskId>, node: TaskId)
    requires node !in processed
    ensures Unprocessed(deps, processed + {node}) == Unprocessed(deps, processed) - multiset(deps)[node]
  {
    if deps != [] {
      assert deps == [deps[0]] + deps[1..];
      UnprocessedStep(deps[1..], processed, node);
    }
  }

  /** Both maps of Kahn's algorithm, while the tasks in `left` are not yet counted: the in-degree
      is the number of entries, and the reverse adjacency holds each entry as often as the list does. */
  ghost predicate Counted(d: DependencyMap, inDegree: map<TaskId, int>, dependents: map<TaskId, seq<TaskId>>,
                          left: set<TaskId>) {
    && inDegree.Keys == dependents.Keys == d.Keys
    && (forall x :: x in d ==> inDegree[x] == if x in left then 0 else |d[x]|)
    && (forall y {:trigger CountedFor(d, dependents[y], y, left)} :: y in d ==> CountedFor(d, dependents[y], y, left))
  }

  ghost predicate CountedFor(d: DependencyMap, entries: seq<TaskId>, y: TaskId, left: set<TaskId>) {
    && (forall x :: x in entries ==> x in d)
    && (forall x {:trigger multiset(entries)[x]} :: x in d ==>
        multiset(entries)[x] == if x in left then 0 else multiset(d[x])[y])
  }

  /** The in-degrees while the dependents in `seen` have been told that one more task is processed. */
  ghost predicate InDegrees(d: DependencyMap, inDegree: map<TaskId, int>, processed: set<TaskId>,
                            seen: multiset<TaskId>) {
    && inDegree.Keys == d.Keys
    && forall x :: x in d ==> inDegree[x] == Unprocessed(d[x], processed) - seen[x]
  }

  /** The queue holds exactly the unprocessed tasks whose in-degree is zero, once each. */
  ghost predicate QueueOfFree(inDegree: map<TaskId, int>, processed: set<TaskId>, queue: seq<TaskId>) {
    && (forall x :: x in queue ==> x in inDegree && x !in processed)
    && (forall x :: x in inDegree ==> (inDegree[x] == 0 <==> x in queue || x in processed))
    && (forall i, j :: 0 <= i < j < |queue| ==> queue[i] != queue[j])
  }

  /** Is some declared dependency not a task? */
  method FindUnknown(d: DependencyMap, idSet: set<TaskId>) returns (found: bool)
    requires idSet == d.Keys
    ensures found <==> !Known(d)
  {
    var left := d.Keys;
    while left != {}
      invariant left <= d.Keys
      invariant forall x, y :: HasDep(d, x, y) && x !in left ==> y in idSet
    {
      var task :| task in left;
      var deps := d[task];
      for i := 0 to |deps|
        invariant forall k :: 0 <= k < i ==> deps[k] in idSet
      {
        if deps[i] !in idSet {
          assert HasDep(d, task, deps[i]);
          return true;
        }
      }
      left := left - {task};
    }
    return false;
  }

  /** The in-degree and reverse-adjacency maps, duplicates included. */
  method Degrees(d: DependencyMap) returns (inDegree: map<TaskId, int>, dependents: map<TaskId, seq<TaskId>>)
    requires Known(d)
    ensures Counted(d, inDegree, dependents, {})
  {
    inDegree := map x | x in d :: 0;
    dependents := map x | x in d :: [];
    var left := d.Keys;
    while left != {}
      invariant left <= d.Keys
      invariant Counted(d, inDegree, dependents, left)
    {
      var task :| task in left;
      inDegree, dependents := CountEntries(d, task, inDegree, dependents, left);
      left := left - {task};
    }
  }

  /** One task's share of both maps: its degree, and itself as a dependent of each entry. */
  method CountEntries(d: DependencyMap, task: TaskId, degreesIn: map<TaskId, int>,
                      dependentsIn: map<TaskId, seq<TaskId>>, ghost left: set<TaskId>)
    returns (inDegree: map<TaskId, int>, dependents: map<TaskId, seq<TaskId>>)
    requires Known(d) && Counted(d, degreesIn, dependentsIn, left) && task in d && task in left
    ensures Counted(d, inDegree, dependents, left - {task})
  {
    forall y | y in d[task] ensures y in dependentsIn { assert HasDep(d, task, y); }
    dependents := AppendEntries(task, d[task], dependentsIn);
    inDegree := degreesIn[task := degreesIn[task] + |d[task]|];
    GrownIsCounted(d, task, dependentsIn, dependents, left);
  }

  /** for dep in deps: dependents[dep].append(task_id) */
  method AppendEntries(task: TaskId, deps: seq<TaskId>, dependentsIn: map<TaskId, seq<TaskId>>)
    returns (dependents: map<TaskId, seq<TaskId>>)
    requires forall y :: y in deps ==> y in dependentsIn
    ensures Grown(dependentsIn, dependents, task, multiset(deps))
  {
    dependents := dependentsIn;
    for i := 0 to |deps|
      invariant Grown(dependentsIn, dependents, task, multiset(deps[..i]))
    {
      var dep := deps[i];
      assert deps[..i + 1] == deps[..i] + [dep];
      GrownStep(dependentsIn, dependents, task, multiset(deps[..i]), dep);
      dependents := dependents[dep := dependents[dep] + [task]];
    }
    assert deps[..|deps|] == deps;
  }

  /** Every list has grown by one copy of the task for each of its entries seen so far. */
  ghost predicate Grown(before: map<TaskId, seq<TaskId>>, after: map<TaskId, seq<TaskId>>, task: TaskId,
                        seen: multiset<TaskId>) {
    && after.Keys == before.Keys
    && forall y {:trigger multiset(after[y])} :: y in before ==>
        multiset(after[y]) == multiset(before[y])[task := multiset(before[y])[task] + seen[y]]
  }

  lemma GrownStep(before: map<TaskId, seq<TaskId>>, after: map<TaskId, seq<TaskId>>, task: TaskId,
                  seen: multiset<TaskId>, dep: TaskId)
    requires Grown(before, after, task, seen) && dep in before
    ensures Grown(before, after[dep := after[dep] + [task]], task, seen + multiset{dep})
  {
  }

  lemma GrownIsCounted(d: DependencyMap, task: TaskId, before: map<TaskId, seq<TaskId>>,
                       after: map<TaskId, seq<TaskId>>, left: set<TaskId>)
    requires task in d && task in left && before.Keys == d.Keys
    requires forall y {:trigger CountedFor(d, before[y], y, left)} :: y in d ==> CountedFor(d, before[y], y, left)
    requires Grown(before, after, task, multiset(d[task]))
    ensures forall y {:trigger CountedFor(d, after[y], y, left - {task})} :: y in d ==>
        CountedFor(d, after[y], y, left - {task})
  {
    forall y | y in d ensures CountedFor(d, after[y], y, left - {task}) {
      assert CountedFor(d, before[y], y, left);
      forall x | x in after[y] ensures x in d {
        assert x in multiset(after[y]);
        assert multiset(after[y]) == multiset(before[y])[task := multiset(before[y])[task] + multiset(d[task])[y]];
        assert x == task || x in multiset(before[y]);
      }
    }
  }

  /** deque(tid for tid, deg in in_degree.items() if deg == 0), in some order. */
  method FreeTasks(inDegree: map<TaskId, int>) returns (queue: seq<TaskId>)
    ensures QueueOfFree(inDegree, {}, queue)
  {
    queue := [];
    var left := inDegree.Keys;
    while left != {}
      invariant left <= inDegree.Keys
      invariant forall x :: x in queue <==> x in inDegree && x !in left && inDegree[x] == 0
      invariant forall i, j :: 0 <= i < j < |queue| ==> queue[i] != queue[j]
    {
      var task :| task in left;
      if inDegree[task] == 0 { queue := queue + [task]; }
      left := left - {task};
    }
  }

  /** Kahn's loop: it gets through all tasks exactly when there is no cycle. */
  method CountProcessed(d: DependencyMap, degrees: map<TaskId, int>, dependents: map<TaskId, seq<TaskId>>)
    returns (processed: nat)
    requires Known(d) && Counted(d, degrees, dependents, {})
    ensures processed == |d.Keys| <==> !Cyclic(d)
  {
    CountedIsInitial(d, degrees, dependents);
    var queue := FreeTasks(degrees);
    ghost var final, order, handled;
    processed, final, handled, order := KahnLoop(d, dependents, degrees, queue);
    KahnVerdict(d, final, handled, order);
  }

  method KahnLoop(d: DependencyMap, dependents: map<TaskId, seq<TaskId>>, degrees: map<TaskId, int>, free: seq<TaskId>)
    returns (processed: nat, inDegree: map<TaskId, int>, ghost handled: set<TaskId>, ghost order: seq<TaskId>)
    requires dependents.Keys == d.Keys
    requires forall y {:trigger CountedFor(d, dependents[y], y, {})} :: y in d ==> CountedFor(d, dependents[y], y, {})
    requires KahnState(d, degrees, free, {}, [])
    ensures KahnAt(d, inDegree, [], handled, order, processed)
  {
    var queue;
    inDegree, queue := degrees, free;
    processed, handled, order := 0, {}, [];
    while queue != []
      invariant KahnAt(d, inDegree, queue, handled, order, processed)
      decreases |d.Keys| - processed
    {
      var node;
      node, inDegree, queue := ProcessNext(d, dependents, inDegree, queue, handled, order, processed);
      processed := processed + 1;
      order := order + [node];
      handled := handled + {node};
    }
  }

  method ProcessNext(d: DependencyMap, dependents: map<TaskId, seq<TaskId>>, degrees: map<TaskId, int>,
                     waiting: seq<TaskId>,
                     ghost handled: set<TaskId>, ghost order: seq<TaskId>, ghost processed: nat)
    returns (node: TaskId, inDegree: map<TaskId, int>, queue: seq<TaskId>)
    requires dependents.Keys == d.Keys
    requires forall y {:trigger CountedFor(d, dependents[y], y, {})} :: y in d ==> CountedFor(d, dependents[y], y, {})
    requires KahnAt(d, degrees, waiting, handled, order, processed) && waiting != []
    ensures processed < |d.Keys| && KahnAt(d, inDegree, queue, handled + {node}, order + [node], processed + 1)
  {
    node := waiting[0];
    KahnNext(d, degrees, waiting, handled, order);
    assert CountedFor(d, dependents[node], node, {});
    inDegree, queue := Release(d, node, dependents[node], degrees, waiting[1..], handled);
  }

  ghost predicate KahnState(d: DependencyMap, inDegree: map<TaskId, int>, queue: seq<TaskId>, handled: set<TaskId>,
                            order: seq<TaskId>) {
    && handled <= d.Keys
    && InDegrees(d, inDegree, handled, multiset{})
    && QueueOfFree(inDegree, handled, queue)
    && (forall x :: x in order <==> x in handled)
    && Topological(d, order)
  }

  ghost predicate KahnAt(d: DependencyMap, inDegree: map<TaskId, int>, queue: seq<TaskId>, handled: set<TaskId>,
                         order: seq<TaskId>, processed: nat) {
    KahnState(d, inDegree, queue, handled, order) && |handled| == processed
  }

  lemma KahnNext(d: DependencyMap, inDegree: map<TaskId, int>, queue: seq<TaskId>, handled: set<TaskId>,
                 order: seq<TaskId>)
    requires KahnState(d, inDegree, queue, handled, order) && queue != []
    ensures var node := queue[0];
            && node in d && node !in handled && inDegree[node] == 0 && queue == [node] + queue[1..]
            && Topological(d, order + [node]) && handled + {node} <= d.Keys && |handled| < |d.Keys|
            && (forall x :: x in order + [node] <==> x in handled + {node})
  {
    var node := queue[0];
    assert node in queue;
    TopologicalExtend(d, order, node, handled);
    SubsetSize(handled + {node}, d.Keys);
  }

  lemma CountedIsInitial(d: DependencyMap, degrees: map<TaskId, int>, dependents: map<TaskId, seq<TaskId>>)
    requires Counted(d, degrees, dependents, {})
    ensures InDegrees(d, degrees, {}, multiset{})
  {
    forall x | x in d ensures degrees[x] == Unprocessed(d[x], {}) {
      UnprocessedZero(d[x], {});
    }
  }

  lemma KahnVerdict(d: DependencyMap, inDegree: map<TaskId, int>, handled: set<TaskId>, order: seq<TaskId>)
    requires Known(d) && handled <= d.Keys
    requires InDegrees(d, inDegree, handled, multiset{}) && QueueOfFree(inDegree, handled, [])
    requires Topological(d, order) && forall x :: x in order <==> x in handled
    ensures |handled| == |d.Keys| <==> !Cyclic(d)
  {
    if handled == d.Keys {
      TopologicalIsAcyclic(d, order);
    } else {
      LeftoverIsCyclic(d, inDegree, handled);
      if |handled| == |d.Keys| { SubsetSize(handled, d.Keys); }
    }
  }

  /** Tells every dependent of a processed node, and enqueues those that become free. */
  method Release(d: DependencyMap, node: TaskId, dependents: seq<TaskId>, degrees: map<TaskId, int>, free: seq<TaskId>,
                 ghost handled: set<TaskId>)
    returns (inDegree: map<TaskId, int>, queue: seq<TaskId>)
    requires node in d && node !in handled && CountedFor(d, dependents, node, {})
    requires InDegrees(d, degrees, handled, multiset{}) && degrees[node] == 0
    requires QueueOfFree(degrees, handled, [node] + free)
    ensures InDegrees(d, inDegree, handled + {node}, multiset{})
    ensures QueueOfFree(inDegree, handled + {node}, queue)
  {
    inDegree, queue := degrees, free;
    QueueTail(degrees, handled, node, free);
    ghost var seen: multiset<TaskId> := multiset{};
    for k := 0 to |dependents|
      invariant seen == multiset(dependents[..k])
      invariant InDegrees(d, inDegree, handled, seen)
      invariant QueueOfFree(inDegree, handled + {node}, queue)
    {
      var dependent := dependents[k];
      StillOwed(d, node, handled, dependents, k);
      InDegreesStep(d, inDegree, handled, seen, dependent);
      QueueStep(inDegree, handled + {node}, dependent, queue);
      inDegree := inDegree[dependent := inDegree[dependent] - 1];
      if inDegree[dependent] == 0 {
        queue := queue + [dependent];
      }
      seen := seen + multiset{dependent};
    }
    assert dependents[..|dependents|] == dependents;
    AllReleased(d, inDegree, handled, node, dependents);
  }

  lemma AllReleased(d: DependencyMap, inDegree: map<TaskId, int>, handled: set<TaskId>, node: TaskId,
                    dependents: seq<TaskId>)
    requires node !in handled && CountedFor(d, dependents, node, {})
    requires InDegrees(d, inDegree, handled, multiset(dependents))
    ensures InDegrees(d, inDegree, handled + {node}, multiset{})
  {
    forall x | x in d ensures inDegree[x] == Unprocessed(d[x], handled + {node}) {
      UnprocessedStep(d[x], handled, node);
      assert multiset(dependents)[x] == multiset(d[x])[node];
    }
  }

  lemma InDegreesStep(d: DependencyMap, inDegree: map<TaskId, int>, handled: set<TaskId>, seen: multiset<TaskId>,
                      x: TaskId)
    requires InDegrees(d, inDegree, handled, seen) && x in d
    ensures InDegrees(d, inDegree[x := inDegree[x] - 1], handled, seen + multiset{x})
  {
  }

  lemma QueueStep(inDegree: map<TaskId, int>, done: set<TaskId>, x: TaskId, queue: seq<TaskId>)
    requires QueueOfFree(inDegree, done, queue) && x in inDegree && inDegree[x] >= 1
    ensures var next := inDegree[x := inDegree[x] - 1];
            QueueOfFree(next, done, if next[x] == 0 then queue + [x] else queue)
  {
    assert x !in queue;
  }

  lemma QueueTail(degrees: map<TaskId, int>, handled: set<TaskId>, node: TaskId, free: seq<TaskId>)
    requires QueueOfFree(degrees, handled, [node] + free)
    ensures QueueOfFree(degrees, handled + {node}, free)
  {
    var queue := [node] + free;
    assert forall x :: x in queue <==> x == node || x in free;
    assert forall i :: 0 <= i < |free| ==> free[i] == queue[i + 1];
    assert queue[0] == node;
    assert node !in free;
  }

  /** A dependent about to be told still counts the node as unprocessed. */
  lemma StillOwed(d: DependencyMap, node: TaskId, handled: set<TaskId>, dependents: seq<TaskId>, k: nat)
    requires node !in handled && CountedFor(d, dependents, node, {}) && k < |dependents|
    ensures dependents[k] in d && multiset(dependents[..k + 1]) == multiset(dependents[..k]) + multiset{dependents[k]}
    ensures Unprocessed(d[dependents[k]], handled) - multiset(dependents[..k])[dependents[k]] >= 1
  {
    var x := dependents[k];
    assert dependents[..k + 1] == dependents[..k] + [x];
    assert dependents == dependents[..k] + [x] + dependents[k + 1..];
    assert multiset(dependents)[x] == multiset(dependents[..k])[x] + 1 + multiset(dependents[k + 1..])[x];
    UnprocessedStep(d[x], handled, node);
  }

  lemma TopologicalExtend(d: DependencyMap, order: seq<TaskId>, node: TaskId, handled: set<TaskId>)
    requires Topological(d, order) && node in d && Unprocessed(d[node], handled) == 0
    requires forall x :: x in order <==> x in handled
    ensures Topological(d, order + [node])
  {
    UnprocessedZero(d[node], handled);
    var longer := order + [node];
    forall k, y | 0 <= k < |longer| && HasDep(d, longer[k], y) ensures y in longer[..k] {
      if k < |order| {
        assert longer[..k] == order[..k];
      } else {
        assert longer[..k] == order;
      }
    }
  }

  /** When the queue runs dry too early, the tasks left over wait for each other. */
  lemma LeftoverIsCyclic(d: DependencyMap, inDegree: map<TaskId, int>, handled: set<TaskId>)
    requires Known(d) && handled <= d.Keys && handled != d.Keys
    requires InDegrees(d, inDegree, handled, multiset{}) && QueueOfFree(inDegree, handled, [])
    ensures Cyclic(d)
  {
    var rest := d.Keys - handled;
    forall x | x in rest ensures WaitsOn(d, x, rest) {
      UnprocessedZero(d[x], handled);
      assert x !in [];
      var y :| y in d[x] && y !in handled;
      assert HasDep(d, x, y) && y in rest;
    }
    var x :| x in d.Keys && x !in handled;
    assert x in rest;
    StuckSetIsCyclic(d, rest);
  }

  class DependencyGraph {
    var tasks: seq<SubAgentTask>
    var idSet: set<TaskId>
    var dependsOn: DependencyMap

    ghost predicate Valid()
      reads this
    {
      DistinctIds(tasks) && idSet == IdsOf(tasks) == dependsOn.Keys
    }

    /** Valid, every dependency known, and no cycle: what validation establishes. */
    ghost predicate Sound()
      reads this
    {
      Valid() && Known(dependsOn) && !Cyclic(dependsOn)
    }

    constructor FromParts(tasks: seq<SubAgentTask>, idSet: set<TaskId>, dependsOn: DependencyMap)
      ensures this.tasks == tasks && this.idSet == idSet && this.dependsOn == dependsOn
    {
      this.tasks, this.idSet, this.dependsOn := tasks, idSet, dependsOn;
    }

    /** DependencyGraph(tasks): fails on duplicate ids, unknown dependencies and cycles only. */
    static method New(tasks: seq<SubAgentTask>) returns (r: Result<DependencyGraph, GraphError>)
      ensures r.Success? <==> DistinctIds(tasks) && Known(DeclaredBy(tasks)) && !Cyclic(DeclaredBy(tasks))
      ensures r == Failure(DuplicateTaskIds) <==> !DistinctIds(tasks)
      ensures r == Failure(UnknownDependency) <==> DistinctIds(tasks) && !Known(DeclaredBy(tasks))
      ensures r.Failure? ==> r.error in {DuplicateTaskIds, UnknownDependency, CycleDetected}
      ensures r.Success? ==> fresh(r.value) && r.value.Sound() && r.value.tasks == tasks
                             && r.value.dependsOn == DeclaredBy(tasks)
    {
      var ids := set t | t in tasks :: t.taskId;
      if |ids| != |tasks| {
        if DistinctIds(tasks) { DistinctIdsCount(tasks); }
        return Failure(DuplicateTaskIds);
      }
      CountDistinctIds(tasks);
      var dependsOn: DependencyMap := map[];
      for i := 0 to |tasks|
        invariant dependsOn == DeclaredBy(tasks[..i])
      {
        assert tasks[..i + 1][..i] == tasks[..i];
        dependsOn := dependsOn[tasks[i].taskId := tasks[i].dependsOn];
      }
      assert tasks[..|tasks|] == tasks;
      DeclaredKeys(tasks);
      var graph := new DependencyGraph.FromParts(tasks, ids, dependsOn);
      var verdict := graph.ValidateNoCycles();
      match verdict
      case Success(_) => return Success(graph);
      case Failure(e) => return Failure(e);
    }

    /** Kahn's algorithm. It accepts exactly the relations without unknown ids and cycles. */
    method ValidateNoCycles() returns (r: Result<(), GraphError>)
      requires Valid()
      ensures r.Success? <==> Known(dependsOn) && !Cyclic(dependsOn)
      ensures r == Failure(UnknownDependency) <==> !Known(dependsOn)
      ensures r.Failure? ==> r.error in {UnknownDependency, CycleDetected}
    {
      var unknown := FindUnknown(dependsOn, idSet);
      if unknown { return Failure(UnknownDependency); }
      var inDegree, dependents := Degrees(dependsOn);
      var processed := CountProcessed(dependsOn, inDegree, dependents);
      DistinctIdsCount(tasks);
      if processed != |tasks| { return Failure(CycleDetected); }
      return Success(());
    }

    /** add_edge: succeeds exactly when WithEdge does, and a failure restores the list exactly. */
    method AddEdge(from: TaskId, to: TaskId) returns (r: Result<(), GraphError>)
      requires Valid()
      modifies this
      ensures Valid() && tasks == old(tasks) && idSet == old(idSet)
      ensures r.Success? <==> WithEdge(old(dependsOn), Edge(from, to)).Some?
      ensures r.Success? ==> dependsOn == WithEdge(old(dependsOn), Edge(from, to)).value
      ensures r.Failure? ==> dependsOn == old(dependsOn)
      ensures r == Failure(UnknownTask) <==> from !in old(idSet) || to !in old(idSet)
      ensures from in idSet && to in idSet && from in old(dependsOn)[to] ==> r.Success? && dependsOn == old(dependsOn)
      ensures from in idSet && to in idSet && from !in old(dependsOn)[to] ==>
                var grown := old(dependsOn)[to := old(dependsOn)[to] + [from]];
                if Known(grown) && !Cyclic(grown) then r.Success? && dependsOn == grown
                else r.Failure? && dependsOn == old(dependsOn)
    {
      if from !in idSet { return Failure(UnknownTask); }
      if to !in idSet { return Failure(UnknownTask); }
      if from in dependsOn[to] { return Success(()); }
      r := AppendOrRollBack(from, to);
    }

    /** The append with its rollback. */
    method AppendOrRollBack(from: TaskId, to: TaskId) returns (r: Result<(), GraphError>)
      requires Valid() && from in idSet && to in idSet && from !in dependsOn[to]
      modifies this
      ensures Valid() && tasks == old(tasks) && idSet == old(idSet)
      ensures var grown := Appended(old(dependsOn), Edge(from, to));
              && (r.Success? <==> Known(grown) && !Cyclic(grown))
              && dependsOn == if r.Success? then grown else old(dependsOn)
      ensures r != Failure(UnknownTask)
    {
      dependsOn := dependsOn[to := dependsOn[to] + [from]];
      r := ValidateNoCycles();
      if r.Failure? {
        RolledBack(old(dependsOn), from, to);
        dependsOn := dependsOn[to := RemoveFirst(dependsOn[to], from)];
      }
    }

    static lemma RolledBack(d: DependencyMap, from: TaskId, to: TaskId)
      requires to in d && from !in d[to]
      ensures var grown := d[to := d[to] + [from]]; grown[to := RemoveFirst(grown[to], from)] == d
    {
      RemoveFirstUndoesAppend(d[to], from);
    }

    /** remove_edge: takes away one occurrence, and does nothing for an absent edge. */
    method RemoveEdge(from: TaskId, to: TaskId)
      requires Valid()
      modifies this
      ensures Valid() && tasks == old(tasks) && idSet == old(idSet)
      ensures dependsOn == WithoutEdge(old(dependsOn), Edge(from, to))
      ensures to !in old(dependsOn) || from !in old(dependsOn)[to] ==> dependsOn == old(dependsOn)
      ensures to in old(dependsOn) && from in old(dependsOn)[to] ==>
                exists i :: 0 <= i < |old(dependsOn)[to]| && old(dependsOn)[to][i] == from
                            && from !in old(dependsOn)[to][..i]
                            && dependsOn == old(dependsOn)[to := old(dependsOn)[to][..i] + old(dependsOn)[to][i + 1..]]
    {
      if to in dependsOn && from in dependsOn[to] {
        ghost var i := RemoveFirstExactly(dependsOn[to], from);
        dependsOn := dependsOn[to := RemoveFirst(dependsOn[to], from)];
      }
    }

    /** clone: an independent edge map over the same task objects. */
    method Clone() returns (c: DependencyGraph)
      requires Valid()
      ensures fresh(c) && c.Valid()
      ensures c.tasks == tasks && c.idSet == idSet && c.dependsOn == dependsOn
    {
      c := new DependencyGraph.FromParts(tasks, idSet, dependsOn);
    }

    predicate IsReady(t: SubAgentTask, completed: set<TaskId>)
      reads this, t
    {
      && t.status == Pending
      && t.taskId in dependsOn
      && forall y :: y in dependsOn[t.taskId] ==> y in completed
    }

    /** ready_tasks: the pending tasks whose every dependency has completed. */
    method ReadyTasks(completed: set<TaskId>) returns (ready: seq<SubAgentTask>)
      requires Valid()
      ensures forall t :: t in ready <==> t in tasks && IsReady(t, completed)
      ensures DistinctIds(ready)
    {
      ready := [];
      ghost var at: seq<nat> := [];
      for i := 0 to |tasks|
        invariant forall t :: t in ready <==> t in tasks[..i] && IsReady(t, completed)
        invariant |at| == |ready|
        invariant forall k :: 0 <= k < |at| ==> at[k] < i && ready[k] == tasks[at[k]]
        invariant forall j, k :: 0 <= j < k < |at| ==> at[j] < at[k]
      {
        var task := tasks[i];
        assert task.taskId in IdsOf(tasks);
        assert tasks[..i + 1] == tasks[..i] + [task];
        if task.status == Pending && forall y :: y in dependsOn[task.taskId] ==> y in completed {
          ready := ready + [task];
          at := at + [i];
        }
      }
    }
  }

  /** {t.task_id: list(t.depends_on) for t in tasks} */
  function DeclaredBy(tasks: seq<SubAgentTask>): (d: DependencyMap) {
    if tasks == [] then map[]
    else
      var last := tasks[|tasks| - 1];
      DeclaredBy(tasks[..|tasks| - 1])[last.taskId := last.dependsOn]
  }

  lemma {:induction false} DeclaredKeys(tasks: seq<SubAgentTask>)
    ensures DeclaredBy(tasks).Keys == IdsOf(tasks)
    ensures DistinctIds(tasks) ==> forall t :: t in tasks ==> DeclaredBy(tasks)[t.taskId] == t.dependsOn
  {
    if tasks != [] {
      var n := |tasks| - 1;
      DeclaredKeys(tasks[..n]);
      assert tasks == tasks[..n] + [tasks[n]];
    }
  }

  lemma {:induction false} CountDistinctIds(tasks: seq<SubAgentTask>)
    requires |IdsOf(tasks)| == |tasks|
    ensures DistinctIds(tasks)
  {
    if tasks != [] {
      var n := |tasks| - 1;
      assert tasks == tasks[..n] + [tasks[n]];
      var last := tasks[n].taskId;
      assert IdsOf(tasks) == IdsOf(tasks[..n]) + {last};
      IdsAtMostTasks(tasks[..n]);
      assert last !in IdsOf(tasks[..n]);
      CountDistinctIds(tasks[..n]);
      forall i | 0 <= i < n ensures tasks[i].taskId != last {
        assert tasks[i] in tasks[..n];
      }
    }
  }

  lemma {:induction false} IdsAtMostTasks(tasks: seq<SubAgentTask>)
    ensures |IdsOf(tasks)| <= |tasks|
  {
    if tasks != [] {
      var n := |tasks| - 1;
      assert tasks == tasks[..n] + [tasks[n]];
      IdsAtMostTasks(tasks[..n]);
      assert IdsOf(tasks) == IdsOf(tasks[..n]) + {tasks[n].taskId};
    }
  }
}
