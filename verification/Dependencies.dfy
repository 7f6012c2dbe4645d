/** The relation "task x lists task y as a dependency", its paths and its cycles. */
module Dependencies {

  /** The identifier of a task; only equality of identifiers matters. */
  datatype TaskId = TaskId(name: string)

  /** For every task, the tasks it waits for; a list, so an entry may occur more than once. */
  type DependencyMap = map<TaskId, seq<TaskId>>

  ghost predicate HasDep(d: DependencyMap, x: TaskId, y: TaskId) {
    x in d && y in d[x]
  }

  /** Every declared dependency is itself a task. */
  ghost predicate Known(d: DependencyMap) {
    forall x, y :: HasDep(d, x, y) ==> y in d
  }

  ghost predicate Link(d: DependencyMap, p: seq<TaskId>, i: nat) {
    i + 1 < |p| && HasDep(d, p[i], p[i + 1])
  }

  /** A non-empty chain in which every task lists the next one as a dependency. */
  ghost predicate Path(d: DependencyMap, p: seq<TaskId>) {
    |p| > 0 && forall i :: 0 <= i < |p| - 1 ==> Link(d, p, i)
  }

  ghost predicate PathFromTo(d: DependencyMap, p: seq<TaskId>, x: TaskId, y: TaskId) {
    Path(d, p) && |p| >= 2 && p[0] == x && p[|p| - 1] == y
  }

  /** y is a proper transitive dependency of x. */
  ghost predicate DependsOn(d: DependencyMap, x: TaskId, y: TaskId) {
    exists p :: PathFromTo(d, p, x, y)
  }

  ghost predicate Cyclic(d: DependencyMap) {
    exists x :: DependsOn(d, x, x)
  }

  lemma DirectDependency(d: DependencyMap, x: TaskId, y: TaskId)
    requires HasDep(d, x, y)
    ensures DependsOn(d, x, y)
  {
    assert Link(d, [x, y], 0);
    assert PathFromTo(d, [x, y], x, y);
  }

  lemma ExtendDependency(d: DependencyMap, x: TaskId, y: TaskId, z: TaskId)
    requires HasDep(d, x, y) && DependsOn(d, y, z)
    ensures DependsOn(d, x, z)
  {
    var p :| PathFromTo(d, p, y, z);
    var q := [x] + p;
    forall i | 0 <= i < |q| - 1 ensures Link(d, q, i) {
      if i > 0 { assert Link(d, p, i - 1); }
    }
    assert PathFromTo(d, q, x, z);
  }

  // ---------------------------------------------------------------- cycles

  ghost predicate WaitsOn(d: DependencyMap, x: TaskId, u: set<TaskId>) {
    exists y :: y in u && HasDep(d, x, y)
  }

  /** Every member of u has a dependency that is again in u. */
  ghost predicate Stuck(d: DependencyMap, u: set<TaskId>) {
    forall x {:trigger WaitsOn(d, x, u)} :: x in u ==> WaitsOn(d, x, u)
  }

  lemma WalkInside(d: DependencyMap, u: set<TaskId>, n: nat) returns (p: seq<TaskId>)
    requires u != {} && Stuck(d, u)
    ensures |p| == n + 1 && Path(d, p) && forall i :: 0 <= i < |p| ==> p[i] in u
  {
    if n == 0 {
      var x :| x in u;
      p := [x];
    } else {
      var q := WalkInside(d, u, n - 1);
      assert WaitsOn(d, q[|q| - 1], u);
      var y :| y in u && HasDep(d, q[|q| - 1], y);
      p := q + [y];
      forall i | 0 <= i < |p| - 1 ensures Link(d, p, i) {
        if i < |q| - 1 { assert Link(d, q, i); }
      }
    }
  }

  lemma Pigeonhole(p: seq<TaskId>, u: set<TaskId>) returns (i: nat, j: nat)
    requires |p| > |u| && forall k :: 0 <= k < |p| ==> p[k] in u
    ensures i < j < |p| && p[i] == p[j]
  {
    var last := |p| - 1;
    if k :| 0 <= k < last && p[k] == p[last] {
      i, j := k, last;
    } else {
      i, j := Pigeonhole(p[..last], u - {p[last]});
    }
  }

  /** A non-empty set closed under "has a dependency inside" contains a cycle. */
  lemma StuckSetIsCyclic(d: DependencyMap, u: set<TaskId>)
    requires u != {} && Stuck(d, u)
    ensures Cyclic(d)
  {
    var p := WalkInside(d, u, |u|);
    var i, j := Pigeonhole(p, u);
    var q := p[i..j + 1];
    forall k | 0 <= k < |q| - 1 ensures Link(d, q, k) {
      assert Link(d, p, i + k);
    }
    assert PathFromTo(d, q, p[i], p[i]);
    assert DependsOn(d, p[i], p[i]);
  }

  /** Every task in the list has all its dependencies earlier in the list. */
  ghost predicate Topological(d: DependencyMap, order: seq<TaskId>) {
    forall k, y :: 0 <= k < |order| && HasDep(d, order[k], y) ==> y in order[..k]
  }

  lemma PathDescends(d: DependencyMap, order: seq<TaskId>, p: seq<TaskId>, k: nat) returns (m: nat)
    requires Topological(d, order) && Path(d, p)
    requires k < |order| && order[k] == p[0]
    ensures m < |order| && order[m] == p[|p| - 1] && m <= k && (|p| >= 2 ==> m < k)
    decreases |p|
  {
    if |p| == 1 {
      m := k;
    } else {
      assert Link(d, p, 0);
      assert p[1] in order[..k];
      var l :| 0 <= l < k && order[l] == p[1];
      forall i | 0 <= i < |p[1..]| - 1 ensures Link(d, p[1..], i) {
        assert Link(d, p, i + 1);
      }
      m := PathDescends(d, order, p[1..], l);
    }
  }

  /** Walking a cycle again and again would go down a topological order for ever. */
  lemma CycleDescends(d: DependencyMap, order: seq<TaskId>, p: seq<TaskId>, x: TaskId, k: nat)
    requires Topological(d, order) && PathFromTo(d, p, x, x)
    requires k < |order| && order[k] == x
    ensures false
    decreases k
  {
    var m := PathDescends(d, order, p, k);
    CycleDescends(d, order, p, x, m);
  }

  /** A topological order of all tasks excludes cycles, self-dependencies included. */
  lemma TopologicalIsAcyclic(d: DependencyMap, order: seq<TaskId>)
    requires Topological(d, order) && forall x :: x in d ==> x in order
    ensures !Cyclic(d)
  {
    if Cyclic(d) {
      var x :| DependsOn(d, x, x);
      var p :| PathFromTo(d, p, x, x);
      assert Link(d, p, 0);
      var k :| 0 <= k < |order| && order[k] == x;
      CycleDescends(d, order, p, x, k);
    }
  }

  /** Fewer dependencies cannot create a cycle, and repeated entries do not matter. */
  lemma CyclicMonotone(d: DependencyMap, e: DependencyMap)
    requires forall x, y :: HasDep(d, x, y) ==> HasDep(e, x, y)
    requires Cyclic(d)
    ensures Cyclic(e)
  {
    var x :| DependsOn(d, x, x);
    var p :| PathFromTo(d, p, x, x);
    forall i | 0 <= i < |p| - 1 ensures Link(e, p, i) {
      assert Link(d, p, i);
    }
    assert PathFromTo(e, p, x, x);
    assert DependsOn(e, x, x);
  }

  /** In an acyclic relation, a set of tasks that each wait inside the set or on a root must reach a root. */
  lemma ReachesRoot(d: DependencyMap, u: set<TaskId>, roots: set<TaskId>, x: TaskId)
    requires !Cyclic(d) && x in u
    requires forall v {:trigger WaitsOn(d, v, u + roots)} :: v in u ==> WaitsOn(d, v, u + roots)
    ensures exists r :: r in roots && DependsOn(d, x, r)
  {
    var lost := set v | v in u && !exists r :: r in roots && DependsOn(d, v, r);
    forall v | v in lost ensures WaitsOn(d, v, lost) {
      assert WaitsOn(d, v, u + roots);
      var y :| y in u + roots && HasDep(d, v, y);
      if y in roots {
        DirectDependency(d, v, y);
      } else if r :| r in roots && DependsOn(d, y, r) {
        ExtendDependency(d, v, y, r);
      }
      assert y in lost;
    }
    if x in lost {
      StuckSetIsCyclic(d, lost);
    }
  }
}
