/** The batch endpoint of the runner: one result slot a call, filled in the order of completion. */
module BatchSlots {
  import opened FiniteSets
  import opened Wrappers

  datatype Artifact = ToolCallFailed(idx: nat) | TaskPanicked | TaskIncomplete(idx: nat)

  /** An envelope of a tool, or one that the batch makes itself for a call that gave none. */
  datatype Envelope = Reply(payload: string) | BatchError(message: string, artifact: Artifact)

  /** What became of one call. */
  datatype Outcome = Returned(envelope: Envelope) | Failed(error: string) | Panicked(error: string)

  /** What join_next yields: the index travels with the result, so a panic has lost it. */
  datatype Join = Joined(idx: nat, result: Result<Envelope, string>) | JoinError(error: string)

  const MAX_BATCH_SIZE := 50

  type Slots = seq<Option<Envelope>>

  function Observed(outcomes: seq<Outcome>, idx: nat): (j: Join)
    requires idx < |outcomes|
  {
    match outcomes[idx]
    case Returned(env) => Joined(idx, Success(env))
    case Failed(e) => Joined(idx, Failure(e))
    case Panicked(e) => JoinError(e)
  }

  function FirstEmpty(slots: Slots): (i: nat)
    ensures i <= |slots| && (i < |slots| ==> slots[i].None?)
    ensures forall k :: 0 <= k < i ==> slots[k].Some?
  {
    if slots == [] || slots[0].None? then 0 else 1 + FirstEmpty(slots[1..])
  }

  function EnvelopeOf(idx: nat, result: Result<Envelope, string>): (e: Envelope) {
    match result
    case Success(env) => env
    case Failure(error) => BatchError(error, ToolCallFailed(idx))
  }

  function Put(slots: Slots, j: Join): (r: Slots)
    requires j.Joined? ==> j.idx < |slots|
    ensures |r| == |slots|
  {
    match j
    case Joined(idx, result) => slots[idx := Some(EnvelopeOf(idx, result))]
    case JoinError(error) =>
      var i := FirstEmpty(slots);
      if i < |slots| then slots[i := Some(BatchError(error, TaskPanicked))] else slots
  }

  predicate InRange(joins: seq<Join>, n: nat) {
    forall j :: j in joins && j.Joined? ==> j.idx < n
  }

  function Empty(n: nat): (r: Slots)
    ensures |r| == n && forall k :: 0 <= k < n ==> r[k] == None
  {
    seq(n, _ => None)
  }

  function Collected(n: nat, joins: seq<Join>): (r: Slots)
    requires InRange(joins, n)
    ensures |r| == n
  {
    if joins == [] then Empty(n) else Put(Collected(n, joins[..|joins| - 1]), joins[|joins| - 1])
  }

  function Filled(slots: Slots): (r: seq<Envelope>)
    ensures |r| == |slots|
    ensures forall k :: 0 <= k < |r| ==>
        r[k] == if slots[k].Some? then slots[k].value else BatchError("", TaskIncomplete(k))
  {
    seq(|slots|, k requires 0 <= k < |slots| =>
      if slots[k].Some? then slots[k].value else BatchError("", TaskIncomplete(k)))
  }

  // ---------------------------------------------------------------- the loops

  /** check_batch_size and batch_execute_tool, given the joins in the order they arrive. */
  method BatchExecute(n: nat, joins: seq<Join>) returns (r: Result<seq<Envelope>, string>)
    requires InRange(joins, n)
    ensures r.Failure? <==> n > 50
    ensures r.Success? ==> r.value == Filled(Collected(n, joins))
  {
    if n > MAX_BATCH_SIZE { return Failure("batch size exceeds maximum"); }
    var out := new Option<Envelope>[n](_ => None);
    assert out[..] == Empty(n);
    var i := 0;
    while i < |joins|
      invariant 0 <= i <= |joins|
      invariant InRange(joins[..i], n) && out[..] == Collected(n, joins[..i])
    {
      assert joins[..i + 1][..i] == joins[..i] && joins[i] in joins;
      TakeJoin(out, joins[i]);
      i := i + 1;
    }
    assert joins[..i] == joins;
    var results := FillRest(out);
    return Success(results);
  }

  method TakeJoin(out: array<Option<Envelope>>, join: Join)
    requires join.Joined? ==> join.idx < out.Length
    modifies out
    ensures out[..] == Put(old(out[..]), join)
  {
    match join {
      case Joined(idx, result) =>
        match result {
          case Success(env) => out[idx] := Some(env);
          case Failure(error) => out[idx] := Some(BatchError(error, ToolCallFailed(idx)));
        }
      case JoinError(error) =>
        var slot := FindEmpty(out);
        if slot < out.Length { out[slot] := Some(BatchError(error, TaskPanicked)); }
    }
  }

  method FindEmpty(out: array<Option<Envelope>>) returns (i: nat)
    ensures i == FirstEmpty(out[..])
  {
    i := 0;
    while i < out.Length && out[i].Some?
      invariant 0 <= i <= out.Length
      invariant forall k :: 0 <= k < i ==> out[k].Some?
    {
      i := i + 1;
    }
    FirstEmptyIs(out[..], i);
  }

  lemma FirstEmptyIs(slots: Slots, i: nat)
    requires i <= |slots| && (i < |slots| ==> slots[i].None?) && forall k :: 0 <= k < i ==> slots[k].Some?
    ensures FirstEmpty(slots) == i
  {
  }

  method FillRest(out: array<Option<Envelope>>) returns (results: seq<Envelope>)
    ensures results == Filled(out[..])
  {
    results := [];
    for i := 0 to out.Length
      invariant |results| == i
      invariant forall k :: 0 <= k < i ==>
        results[k] == if out[k].Some? then out[k].value else BatchError("", TaskIncomplete(k))
    {
      results := results + [if out[i].Some? then out[i].value else BatchError("", TaskIncomplete(i))];
    }
  }

  // -------------------------------------------------- every order of completion

  /** Each of the n calls is joined once. */
  predicate Permutes(order: seq<nat>, n: nat) {
    && |order| == n
    && (forall k :: 0 <= k < |order| ==> order[k] < n)
    && (forall k, l :: 0 <= k < l < |order| ==> order[k] != order[l])
  }

  /** The joins that are seen when the calls complete in this order. */
  function Joins(outcomes: seq<Outcome>, order: seq<nat>): (r: seq<Join>)
    requires forall k :: 0 <= k < |order| ==> order[k] < |outcomes|
    ensures |r| == |order| && InRange(r, |outcomes|)
    ensures forall k :: 0 <= k < |order| ==> r[k] == Observed(outcomes, order[k])
  {
    seq(|order|, k requires 0 <= k < |order| => Observed(outcomes, order[k]))
  }

  /** The envelope a call has earned, if it did not panic. */
  function Own(outcomes: seq<Outcome>, idx: nat): (e: Envelope)
    requires idx < |outcomes| && !outcomes[idx].Panicked?
  {
    if outcomes[idx].Returned? then outcomes[idx].envelope else BatchError(outcomes[idx].error, ToolCallFailed(idx))
  }

  predicate IsPanicOf(outcomes: seq<Outcome>, e: Envelope) {
    e.BatchError? && e.artifact == TaskPanicked && Panicked(e.message) in outcomes
  }

  /** A slot holds nothing, a panic, or what its own call earned; joined calls that did not panic have theirs. */
  predicate SlotsFit(outcomes: seq<Outcome>, done: seq<nat>, slots: Slots) {
    && |slots| == |outcomes|
    && (forall i :: 0 <= i < |slots| && slots[i].Some? ==>
          IsPanicOf(outcomes, slots[i].value) || (!outcomes[i].Panicked? && slots[i].value == Own(outcomes, i)))
    && (forall i :: 0 <= i < |slots| && i in done && !outcomes[i].Panicked? ==> slots[i] == Some(Own(outcomes, i)))
  }

  /** The number of calls that have not been joined yet never exceeds the number of empty slots. */
  function Empties(slots: Slots): (n: nat) {
    if slots == [] then 0 else Empties(slots[..|slots| - 1]) + (if slots[|slots| - 1].None? then 1 else 0)
  }

  lemma {:induction false} EmptiesAfterWrite(slots: Slots, i: nat, e: Envelope)
    requires i < |slots|
    ensures Empties(slots[i := Some(e)]) == Empties(slots) - (if slots[i].None? then 1 else 0)
  {
    var n := |slots| - 1;
    if i < n {
      EmptiesAfterWrite(slots[..n], i, e);
      assert slots[i := Some(e)][..n] == slots[..n][i := Some(e)];
    } else {
      assert slots[i := Some(e)][..n] == slots[..n];
    }
  }

  lemma {:induction false} AllEmpty(n: nat)
    ensures Empties(Empty(n)) == n
  {
    if n > 0 {
      assert Empty(n)[..n - 1] == Empty(n - 1);
      AllEmpty(n - 1);
    }
  }

  lemma {:induction false} NoneEmpty(slots: Slots)
    requires forall k :: 0 <= k < |slots| ==> slots[k].Some?
    ensures Empties(slots) == 0
  {
    if slots != [] { NoneEmpty(slots[..|slots| - 1]); }
  }

  /** How many results have replaced the envelope of a panic that was parked in their slot. */
  function Overwritten(n: nat, joins: seq<Join>): (r: nat)
    requires InRange(joins, n)
  {
    if joins == [] then 0
    else
      var front, j := joins[..|joins| - 1], joins[|joins| - 1];
      Overwritten(n, front) + (if j.Joined? && Collected(n, front)[j.idx].Some? then 1 else 0)
  }

  /** Conservation: empty slots are the calls still out plus the overwritten panics. So a panic always
      finds an empty slot, and at the end exactly the overwritten panics are reported as incomplete. */
  lemma {:induction false} EmptiesConserved(n: nat, joins: seq<Join>)
    requires InRange(joins, n) && |joins| <= n
    ensures Empties(Collected(n, joins)) == n - |joins| + Overwritten(n, joins)
  {
    if joins == [] {
      AllEmpty(n);
    } else {
      var front, j := joins[..|joins| - 1], joins[|joins| - 1];
      EmptiesConserved(n, front);
      var slots := Collected(n, front);
      match j
      case Joined(idx, result) => EmptiesAfterWrite(slots, idx, EnvelopeOf(idx, result));
      case JoinError(error) =>
        RoomForPanic(n, front);
        EmptiesAfterWrite(slots, FirstEmpty(slots), BatchError(error, TaskPanicked));
    }
  }

  lemma RoomForPanic(n: nat, joins: seq<Join>)
    requires InRange(joins, n) && |joins| < n
    requires Empties(Collected(n, joins)) == n - |joins| + Overwritten(n, joins)
    ensures FirstEmpty(Collected(n, joins)) < n
  {
    var slots := Collected(n, joins);
    if FirstEmpty(slots) == n { NoneEmpty(slots); }
  }

  /** A panic is never dropped: while calls are still out there is an empty slot. */
  lemma PanicFindsSlot(n: nat, joins: seq<Join>)
    requires InRange(joins, n) && |joins| < n
    ensures FirstEmpty(Collected(n, joins)) < n
  {
    EmptiesConserved(n, joins);
    RoomForPanic(n, joins);
  }

  lemma {:induction false} SlotsAlwaysFit(outcomes: seq<Outcome>, order: seq<nat>, k: nat)
    requires Permutes(order, |outcomes|) && k <= |order|
    ensures SlotsFit(outcomes, order[..k], Collected(|outcomes|, Joins(outcomes, order)[..k]))
  {
    if k > 0 {
      SlotsAlwaysFit(outcomes, order, k - 1);
      var joins := Joins(outcomes, order);
      StepFits(outcomes, order[..k - 1], order[k - 1], Collected(|outcomes|, joins[..k - 1]));
      CollectedStep(|outcomes|, joins, k);
      DoneStep(order, k);
    }
  }

  lemma DoneStep(order: seq<nat>, k: nat)
    requires 0 < k <= |order|
    ensures order[..k] == order[..k - 1] + [order[k - 1]]
  {
  }

  lemma CollectedStep(n: nat, joins: seq<Join>, k: nat)
    requires InRange(joins, n) && 0 < k <= |joins|
    ensures Collected(n, joins[..k]) == Put(Collected(n, joins[..k - 1]), joins[k - 1])
  {
    assert joins[..k][..k - 1] == joins[..k - 1] && joins[..k][k - 1] == joins[k - 1];
  }

  lemma StepFits(outcomes: seq<Outcome>, done: seq<nat>, idx: nat, slots: Slots)
    requires SlotsFit(outcomes, done, slots) && idx < |outcomes| && idx !in done
    ensures SlotsFit(outcomes, done + [idx], Put(slots, Observed(outcomes, idx)))
  {
    var r := Put(slots, Observed(outcomes, idx));
    match outcomes[idx]
    case Panicked(e) =>
      assert outcomes[idx] in outcomes;
      assert forall i :: 0 <= i < |slots| && i in done && !outcomes[i].Panicked? ==> slots[i].Some?;
    case _ => assert r[idx] == Some(Own(outcomes, idx));
  }

  function Elements(order: seq<nat>): (r: set<nat>)
    ensures forall k: nat :: k in r <==> k in order
  {
    if order == [] then {} else Elements(order[..|order| - 1]) + {order[|order| - 1]}
  }

  function Below(n: nat): (r: set<nat>)
    ensures |r| == n && forall k: nat :: k in r <==> k < n
  {
    if n == 0 then {} else Below(n - 1) + {n - 1}
  }

  lemma {:induction false} SizeOfDistinct(order: seq<nat>)
    requires forall k, l :: 0 <= k < l < |order| ==> order[k] != order[l]
    ensures |Elements(order)| == |order|
  {
    if order != [] { SizeOfDistinct(order[..|order| - 1]); }
  }

  lemma EveryIndexOccurs(order: seq<nat>, n: nat, i: nat)
    requires Permutes(order, n) && i < n
    ensures i in order
  {
    if i !in order {
      SizeOfDistinct(order);
      SubsetSize(Elements(order), Below(n) - {i});
    }
  }

  /** For every order of completion and every set of panics: as many entries as calls; a call that did
      not panic has exactly its own envelope, even if a panic had been parked in its slot; a call that
      panicked has an error envelope, of a panic of this batch or of an incomplete task. */
  lemma BatchAnswers(outcomes: seq<Outcome>, order: seq<nat>)
    requires Permutes(order, |outcomes|)
    ensures var r := Filled(Collected(|outcomes|, Joins(outcomes, order)));
            && |r| == |outcomes|
            && (forall i :: 0 <= i < |r| && !outcomes[i].Panicked? ==> r[i] == Own(outcomes, i))
            && (forall i :: 0 <= i < |r| && outcomes[i].Panicked? ==>
                  IsPanicOf(outcomes, r[i]) || (r[i].BatchError? && r[i].artifact == TaskIncomplete(i)))
  {
    var joins := Joins(outcomes, order);
    SlotsAlwaysFit(outcomes, order, |order|);
    assert joins[..|order|] == joins && order[..|order|] == order;
    forall i: nat | i < |outcomes| ensures i in order { EveryIndexOccurs(order, |outcomes|, i); }
  }
}
