/** What adding, removing and patching dependency edges does to a dependency relation. */
module Rewiring {
  import opened Wrappers
  import opened Dependencies

  /** The edge from -> to: task `to` depends on task `from`. */
  datatype Edge = Edge(from: TaskId, to: TaskId)

  datatype DependencyPatch = DependencyPatch(addEdges: seq<Edge>, removeEdges: seq<Edge>)

  /** list.remove(x): drops the first occurrence, if there is one. */
  function RemoveFirst<T(==)>(s: seq<T>, x: T): (r: seq<T>)
    ensures multiset(r) == multiset(s) - multiset{x}
    ensures x !in s ==> r == s
  {
    if s == [] then []
    else if s[0] == x then
      assert s == [s[0]] + s[1..];
      s[1..]
    else
      assert s == [s[0]] + s[1..];
      [s[0]] + RemoveFirst(s[1..], x)
  }

  /** It is the first occurrence that goes, and everything else stays in its order. */
  lemma {:induction false} RemoveFirstExactly<T>(s: seq<T>, x: T) returns (i: nat)
    requires x in s
    ensures i < |s| && s[i] == x && x !in s[..i] && RemoveFirst(s, x) == s[..i] + s[i + 1..]
  {
    if s[0] == x {
      i := 0;
    } else {
      var k := RemoveFirstExactly(s[1..], x);
      i := k + 1;
      OneFurther(s, k);
    }
  }

  lemma OneFurther<T>(s: seq<T>, k: nat)
    requires k + 1 < |s|
    ensures s[..k + 1] == [s[0]] + s[1..][..k] && s[k + 2..] == s[1..][k + 1..]
    ensures [s[0]] + (s[1..][..k] + s[1..][k + 1..]) == s[..k + 1] + s[k + 2..]
  {
  }

  /** Removing an element just appended to a list that did not hold it restores the list. */
  lemma {:induction false} RemoveFirstUndoesAppend<T>(s: seq<T>, x: T)
    requires x !in s
    ensures RemoveFirst(s + [x], x) == s
  {
    if s != [] {
      assert (s + [x])[1..] == s[1..] + [x];
      RemoveFirstUndoesAppend(s[1..], x);
      assert s == [s[0]] + s[1..];
    }
  }

  function WithoutEdge(d: DependencyMap, e: Edge): (r: DependencyMap) {
    if e.to in d && e.from in d[e.to] then d[e.to := RemoveFirst(d[e.to], e.from)] else d
  }

  function WithoutEdges(d: DependencyMap, es: seq<Edge>): (r: DependencyMap) {
    if es == [] then d else WithoutEdges(WithoutEdge(d, es[0]), es[1..])
  }

  function Appended(d: DependencyMap, e: Edge): (r: DependencyMap)
    requires e.to in d
  {
    d[e.to := d[e.to] + [e.from]]
  }

  /** The relation after add_edge, or None where add_edge raises. */
  ghost function WithEdge(d: DependencyMap, e: Edge): (r: Option<DependencyMap>) {
    if e.from !in d || e.to !in d then None
    else if e.from in d[e.to] then Some(d)
    else if Known(Appended(d, e)) && !Cyclic(Appended(d, e)) then Some(Appended(d, e))
    else None
  }

  ghost function WithEdges(d: DependencyMap, es: seq<Edge>): (r: Option<DependencyMap>) {
    if es == [] then Some(d)
    else match WithEdge(d, es[0])
      case None => None
      case Some(next) => WithEdges(next, es[1..])
  }

  /** The relation a patch produces, or None when the patch is discarded. */
  ghost function Patched(d: DependencyMap, p: DependencyPatch): (r: Option<DependencyMap>) {
    WithEdges(WithoutEdges(d, p.removeEdges), p.addEdges)
  }

  // ------------------------------------------------------------- removals

  function Monus(a: nat, b: nat): (r: nat) {
    if a < b then 0 else a - b
  }

  /** Each removal takes away one occurrence at most, whatever the order of the removals. */
  lemma {:induction false} WithoutEdgesCounts(d: DependencyMap, es: seq<Edge>, x: TaskId, y: TaskId)
    requires x in d
    ensures WithoutEdges(d, es).Keys == d.Keys
    ensures multiset(WithoutEdges(d, es)[x])[y] == Monus(multiset(d[x])[y], multiset(es)[Edge(y, x)])
  {
    if es != [] {
      assert es == [es[0]] + es[1..];
      WithoutEdgesCounts(WithoutEdge(d, es[0]), es[1..], x, y);
    }
  }

  lemma {:induction false} WithoutEdgesShrinks(d: DependencyMap, es: seq<Edge>)
    ensures WithoutEdges(d, es).Keys == d.Keys
    ensures forall x, y :: HasDep(WithoutEdges(d, es), x, y) ==> HasDep(d, x, y)
  {
    if es != [] {
      var next := WithoutEdge(d, es[0]);
      forall x, y | HasDep(next, x, y) ensures HasDep(d, x, y) {
        assert y in multiset(next[x]);
      }
      WithoutEdgesShrinks(next, es[1..]);
    }
  }

  // ------------------------------------------------------------ additions

  /** m relates exactly what d relates, and what the added edges say. */
  ghost predicate IsUnion(m: DependencyMap, d: DependencyMap, es: seq<Edge>) {
    && m.Keys == d.Keys
    && forall x, y :: HasDep(m, x, y) <==> HasDep(d, x, y) || (x in d && Edge(y, x) in es)
  }

  ghost predicate EdgesKnown(d: DependencyMap, es: seq<Edge>) {
    forall e :: e in es ==> e.from in d && e.to in d
  }

  lemma WithEdgeKeepsSound(d: DependencyMap, e: Edge)
    requires Known(d) && !Cyclic(d) && WithEdge(d, e).Some?
    ensures var r := WithEdge(d, e).value;
            Known(r) && !Cyclic(r) && IsUnion(r, d, [e])
  {
    var r := WithEdge(d, e).value;
    forall x, y ensures HasDep(r, x, y) <==> HasDep(d, x, y) || (x in d && Edge(y, x) in [e]) {
    }
  }

  /** An accepted sequence of additions yields the union, and the union is acyclic. */
  lemma {:induction false} AcceptedIsUnion(d: DependencyMap, es: seq<Edge>)
    requires Known(d) && !Cyclic(d) && WithEdges(d, es).Some?
    ensures var r := WithEdges(d, es).value;
            EdgesKnown(d, es) && IsUnion(r, d, es) && Known(r) && !Cyclic(r)
  {
    if es != [] {
      var next := WithEdge(d, es[0]).value;
      WithEdgeKeepsSound(d, es[0]);
      AcceptedIsUnion(next, es[1..]);
      var r := WithEdges(d, es).value;
      forall x, y ensures HasDep(r, x, y) <==> HasDep(d, x, y) || (x in d && Edge(y, x) in es) {
        assert HasDep(next, x, y) <==> HasDep(d, x, y) || (x in d && Edge(y, x) in [es[0]]);
        assert Edge(y, x) in es <==> Edge(y, x) in [es[0]] || Edge(y, x) in es[1..];
      }
    }
  }

  /** An acyclic union is enough: no intermediate graph can then be cyclic. */
  lemma {:induction false} AcyclicUnionIsAccepted(d: DependencyMap, es: seq<Edge>, m: DependencyMap)
    requires Known(d) && EdgesKnown(d, es) && IsUnion(m, d, es) && !Cyclic(m)
    ensures WithEdges(d, es).Some?
  {
    if es != [] {
      var e := es[0];
      assert e in es;
      var next := if e.from in d[e.to] then d else Appended(d, e);
      forall x, y ensures HasDep(next, x, y) <==> HasDep(d, x, y) || (x in d && Edge(y, x) in [e]) {
      }
      forall x, y | HasDep(next, x, y) ensures HasDep(m, x, y) {
        assert Edge(y, x) in [e] ==> Edge(y, x) in es;
      }
      if Cyclic(next) { CyclicMonotone(next, m); }
      assert WithEdge(d, e) == Some(next);
      forall x, y ensures HasDep(m, x, y) <==> HasDep(next, x, y) || (x in next && Edge(y, x) in es[1..]) {
        assert Edge(y, x) in es <==> Edge(y, x) in [e] || Edge(y, x) in es[1..];
      }
      AcyclicUnionIsAccepted(next, es[1..], m);
    }
  }

  // -------------------------------------------------------------- patches

  /** A patch is accepted exactly when it names known tasks and the graph without the removed
      edges, united with all the added ones, has no cycle; m is any such union. */
  lemma PatchAcceptedExactly(d: DependencyMap, p: DependencyPatch, m: DependencyMap)
    requires Known(d) && !Cyclic(d)
    requires EdgesKnown(d, p.addEdges) ==> IsUnion(m, WithoutEdges(d, p.removeEdges), p.addEdges)
    ensures Patched(d, p).Some? <==> EdgesKnown(d, p.addEdges) && !Cyclic(m)
  {
    var base := WithoutEdges(d, p.removeEdges);
    PatchKeepsSound(d, p);
    if Patched(d, p).Some? {
      AcceptedIsUnion(base, p.addEdges);
      var r := Patched(d, p).value;
      forall x, y ensures HasDep(m, x, y) <==> HasDep(r, x, y) {
      }
      if Cyclic(m) { CyclicMonotone(m, r); }
    } else if EdgesKnown(d, p.addEdges) && !Cyclic(m) {
      AcyclicUnionIsAccepted(base, p.addEdges, m);
    }
  }

  /** Removals never break a sound graph, and whatever an accepted patch produces is sound. */
  lemma PatchKeepsSound(d: DependencyMap, p: DependencyPatch)
    requires Known(d) && !Cyclic(d)
    ensures var base := WithoutEdges(d, p.removeEdges);
            base.Keys == d.Keys && Known(base) && !Cyclic(base)
    ensures Patched(d, p).Some? ==>
              var r := Patched(d, p).value;
              r.Keys == d.Keys && Known(r) && !Cyclic(r)
  {
    var base := WithoutEdges(d, p.removeEdges);
    WithoutEdgesShrinks(d, p.removeEdges);
    if Cyclic(base) { CyclicMonotone(base, d); }
    if Patched(d, p).Some? { AcceptedIsUnion(base, p.addEdges); }
  }

  /** Reordering both lists of a patch, or repeating an addition, changes neither the verdict
      nor the relation that results. */
  lemma PatchOrderIrrelevant(d: DependencyMap, p: DependencyPatch, q: DependencyPatch)
    requires Known(d) && !Cyclic(d)
    requires multiset(p.removeEdges) == multiset(q.removeEdges)
    requires forall e :: e in p.addEdges <==> e in q.addEdges
    ensures Patched(d, p).Some? <==> Patched(d, q).Some?
    ensures Patched(d, p).Some? ==>
              forall x, y :: HasDep(Patched(d, p).value, x, y) <==> HasDep(Patched(d, q).value, x, y)
  {
    RemovalOrderIrrelevant(d, p.removeEdges, q.removeEdges);
    PatchKeepsSound(d, p);
    PatchKeepsSound(d, q);
    if Patched(d, q).Some? { SameVerdict(d, q, p); }
    if Patched(d, p).Some? {
      SameVerdict(d, p, q);
      AcceptedIsUnion(WithoutEdges(d, p.removeEdges), p.addEdges);
      AcceptedIsUnion(WithoutEdges(d, q.removeEdges), q.addEdges);
    }
  }

  lemma RemovalOrderIrrelevant(d: DependencyMap, es: seq<Edge>, fs: seq<Edge>)
    requires multiset(es) == multiset(fs)
    ensures WithoutEdges(d, es).Keys == d.Keys == WithoutEdges(d, fs).Keys
    ensures forall x, y :: HasDep(WithoutEdges(d, es), x, y) <==> HasDep(WithoutEdges(d, fs), x, y)
  {
    WithoutEdgesShrinks(d, es);
    WithoutEdgesShrinks(d, fs);
    forall x, y ensures HasDep(WithoutEdges(d, es), x, y) <==> HasDep(WithoutEdges(d, fs), x, y) {
      if x in d {
        WithoutEdgesCounts(d, es, x, y);
        WithoutEdgesCounts(d, fs, x, y);
        assert y in multiset(WithoutEdges(d, es)[x]) <==> y in WithoutEdges(d, es)[x];
        assert y in multiset(WithoutEdges(d, fs)[x]) <==> y in WithoutEdges(d, fs)[x];
      }
    }
  }

  lemma SameVerdict(d: DependencyMap, p: DependencyPatch, q: DependencyPatch)
    requires Known(d) && !Cyclic(d) && Patched(d, p).Some?
    requires WithoutEdges(d, p.removeEdges).Keys == d.Keys == WithoutEdges(d, q.removeEdges).Keys
    requires forall x, y ::
        HasDep(WithoutEdges(d, p.removeEdges), x, y) <==> HasDep(WithoutEdges(d, q.removeEdges), x, y)
    requires forall e :: e in p.addEdges <==> e in q.addEdges
    ensures Patched(d, q).Some?
  {
    var base := WithoutEdges(d, p.removeEdges);
    PatchKeepsSound(d, p);
    PatchKeepsSound(d, q);
    AcceptedIsUnion(base, p.addEdges);
    AcyclicUnionIsAccepted(WithoutEdges(d, q.removeEdges), q.addEdges, Patched(d, p).value);
  }
}
