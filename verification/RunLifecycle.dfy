/** Every interleaving of the API calls on one run with its capture threads, of which there may be
    several: a resume starts a new one while an old one can still be on its way to _mark_finished. */
module RunLifecycle {
  import opened Wrappers
  import opened RunRecords

  /** `exits` says how the processes that are over ended; `unstarted` counts capture threads that have
      not yet read the record's process; `capturing` holds the processes the others wait for; `between`
      counts threads between the two locked sections of _mark_finished. */
  datatype System = System(
    record: Record,
    spawned: nat,
    exits: map<nat, int>,
    unstarted: nat,
    capturing: multiset<nat>,
    between: nat)

  datatype Event =
    | ProcessExits(process: nat, code: int)
    | ThreadStarts
    | LogLine(line: string)
    | Refresh(trace: ApprovalState, now: int)
    | Cancel(trace: ApprovalState, now: int)
    // approve_run up to its last refresh, which is a Refresh of its own
    | Approve(trace: ApprovalState, now: int, actor: string, rationale: string, provided: Option<string>)
    | Reject(trace: ApprovalState, now: int, actor: string, rationale: string)
    | MarkFirst(process: nat, now: int)
    | MarkSecond(trace: ApprovalState)

  /** process.poll() */
  function Poll(s: System): (r: Option<int>) {
    if s.record.process.Some? && s.record.process.value in s.exits then Some(s.exits[s.record.process.value]) else None
  }

  function AfterRefresh(s: System, trace: ApprovalState, now: int): (r: Record) {
    Refreshed(s.record, Poll(s), trace, now)
  }

  predicate Enabled(s: System, e: Event) {
    match e
    case ProcessExits(p, _) => p < s.spawned && p !in s.exits
    case ThreadStarts => s.unstarted > 0
    case MarkFirst(p, _) => p in s.capturing && p in s.exits
    case MarkSecond(_) => s.between > 0
    case _ => true
  }

  function Apply(s: System, e: Event): (r: System)
    requires Enabled(s, e)
  {
    match e
    case ProcessExits(p, code) => s.(exits := s.exits[p := code])
    case ThreadStarts =>
      var t := s.(unstarted := s.unstarted - 1);
      if s.record.process.None? then t else t.(capturing := s.capturing + multiset{s.record.process.value})
    case LogLine(line) => s.(record := s.record.(logs := s.record.logs + [line]))
    case Refresh(trace, now) => s.(record := AfterRefresh(s, trace, now))
    case Cancel(trace, now) => s.(record := CancelledBy(AfterRefresh(s, trace, now)))
    case Approve(trace, now, actor, rationale, provided) =>
      var t := AfterRefresh(s, trace, now);
      if ApprovalProblem(t, provided).Some? then s.(record := t)
      else
        s.(record := ResumedBy(t, actor, rationale, now, s.spawned),
           spawned := s.spawned + 1, unstarted := s.unstarted + 1)
    case Reject(trace, now, actor, rationale) =>
      var t := AfterRefresh(s, trace, now);
      s.(record := if t.pendingApproval then RejectedBy(t, actor, rationale, now) else t)
    case MarkFirst(p, now) =>
      var t := s.(capturing := s.capturing - multiset{p});
      if s.record.finishedAt.Some? then t else t.(record := Ended(s.record, s.exits[p], now), between := s.between + 1)
    case MarkSecond(trace) => s.(record := WithApproval(s.record, trace), between := s.between - 1)
  }

  /** create_run: the record exists; its process runs and its capture thread is about to start, or the
      spawn raised and there is neither. */
  ghost predicate Initial(s: System) {
    exists argv, now, threadId, checkpointId ::
      StartsWith(s, NewRecord(argv, now, threadId, checkpointId))
  }

  predicate StartsWith(s: System, r: Record) {
    s == System(r.(process := Some(0)), 1, map[], 1, multiset{}, 0) || s == System(r, 0, map[], 0, multiset{}, 0)
  }

  ghost predicate Legal(s: System, es: seq<Event>)
    decreases |es|, 0
  {
    es == [] || (Legal(s, es[..|es| - 1]) && Enabled(Exec(s, es[..|es| - 1]), es[|es| - 1]))
  }

  ghost function Exec(s: System, es: seq<Event>): (r: System)
    requires Legal(s, es)
    decreases |es|, 1
  {
    if es == [] then s else Apply(Exec(s, es[..|es| - 1]), es[|es| - 1])
  }

  /** Each event is the call on the record object: with the same record before, the object has the record of
      the next state after. */
  method Perform(r: RunRecord, s: System, e: Event)
    requires r.View() == s.record && Enabled(s, e)
    modifies r
    ensures r.View() == Apply(s, e).record
  {
    match e {
      case ProcessExits(_, _) =>
      case ThreadStarts =>
      case LogLine(line) => r.AppendLog(line);
      case Refresh(trace, now) => r.Refresh(Poll(s), trace, now);
      case Cancel(trace, now) => r.Cancel(Poll(s), trace, now);
      case Approve(trace, now, actor, rationale, provided) =>
        var _ := r.Approve(Poll(s), trace, now, actor, rationale, provided, s.spawned, None, trace, now);
      case Reject(trace, now, actor, rationale) =>
        var _ := r.Reject(Poll(s), trace, now, actor, rationale);
      case MarkFirst(p, now) =>
        var _ := r.MarkFinishedFirst(s.exits[p], now);
      case MarkSecond(trace) => r.MarkFinishedSecond(trace);
    }
  }

  // ------------------------------------------------------------ the invariant

  predicate Finished(r: Record) {
    r.finishedAt.Some?
  }

  predicate RecordInv(r: Record) {
    && (r.pendingApproval <==> r.status == Suspended)
    && (r.pendingApproval ==> Finished(r) && !r.cancelRequested)
    && (!Finished(r) <==> r.status == Running || r.status == Cancelling)
    && (!Finished(r) ==> (r.cancelRequested <==> r.status == Cancelling))
    && (Finished(r) ==> (r.cancelRequested <==> r.status == Cancelled))
    && (Finished(r) <==> r.exitCode.Some?)
    && (r.status == Succeeded ==> r.exitCode == Some(0))
    && (r.status == Failed ==> r.exitCode != Some(0))
    && (r.status == Rejected ==> r.exitCode == Some(1))
    && (!r.pendingApproval ==> r.pendingSummary == "" && r.pendingDetails == NO_DETAILS)
  }

  /** No process was ever spawned for the record, and no thread watches it. */
  predicate Orphaned(s: System) {
    && s.record.process == None && s.spawned == 0 && s.unstarted == 0 && s.capturing == multiset{}
    && s.between == 0 && !Finished(s.record)
  }

  /** At most one thread is between the sections, and the record it is about to touch is finished,
      not pending and not rejected. */
  predicate Inv(s: System) {
    && RecordInv(s.record)
    && s.between <= 1
    && (s.between == 1 ==> s.record.status in {Succeeded, Failed, Cancelled})
    && (s.record.process.Some? ==> s.record.process.value < s.spawned)
    && (s.record.process.None? ==> Orphaned(s))
    && (forall p :: p in s.capturing ==> p < s.spawned)
    && (forall p :: p in s.exits ==> p < s.spawned)
  }

  lemma RefreshKeepsRecord(r: Record, poll: Option<int>, a: ApprovalState, now: int)
    requires RecordInv(r)
    ensures RecordInv(Refreshed(r, poll, a, now)) && Refreshed(r, poll, a, now).process == r.process
    ensures Finished(r) ==> Refreshed(r, poll, a, now) == r
  {
    if !Finished(r) && poll.Some? {
      var t := Ended(r, poll.value, now);
      assert RecordInv(t) && !t.pendingApproval;
      assert RecordInv(WithApproval(t, a));
    }
  }

  lemma ResumeKeepsRecord(r: Record, actor: string, rationale: string, now: int, process: nat)
    requires RecordInv(r) && r.pendingApproval && r.pendingDetails.challengeId.Some?
    ensures RecordInv(ResumedBy(r, actor, rationale, now, process))
    ensures ResumedBy(r, actor, rationale, now, process).process == Some(process)
  {
  }

  lemma RejectKeepsRecord(r: Record, actor: string, rationale: string, now: int)
    requires RecordInv(r) && r.pendingApproval
    ensures RecordInv(RejectedBy(r, actor, rationale, now))
    ensures RejectedBy(r, actor, rationale, now).process == r.process
  {
  }

  /** What the calls of the service keep, each with its refresh. */
  lemma CallKeepsInv(s: System, e: Event)
    requires Inv(s) && Enabled(s, e) && (e.Refresh? || e.Cancel? || e.Approve? || e.Reject?)
    ensures Inv(Apply(s, e))
  {
    RefreshKeepsRecord(s.record, Poll(s), e.trace, e.now);
    var t := AfterRefresh(s, e.trace, e.now);
    match e
    case Refresh(_, _) =>
    case Cancel(_, _) => assert RecordInv(CancelledBy(t));
    case Approve(_, now, actor, rationale, provided) =>
      if ApprovalProblem(t, provided).None? { ResumeKeepsRecord(t, actor, rationale, now, s.spawned); }
    case Reject(_, now, actor, rationale) =>
      if t.pendingApproval { RejectKeepsRecord(t, actor, rationale, now); }
  }

  /** What the steps of the processes and of their capture threads keep. */
  lemma ThreadKeepsInv(s: System, e: Event)
    requires Inv(s) && Enabled(s, e) && !(e.Refresh? || e.Cancel? || e.Approve? || e.Reject?)
    ensures Inv(Apply(s, e))
  {
    match e
    case MarkFirst(p, now) =>
      assert forall q :: q in s.capturing - multiset{p} ==> q in s.capturing;
      if !Finished(s.record) { assert RecordInv(Ended(s.record, s.exits[p], now)); }
    case MarkSecond(trace) => assert RecordInv(WithApproval(s.record, trace));
    case _ =>
  }

  lemma StepKeepsInv(s: System, e: Event)
    requires Inv(s) && Enabled(s, e)
    ensures Inv(Apply(s, e))
  {
    if e.Refresh? || e.Cancel? || e.Approve? || e.Reject? { CallKeepsInv(s, e); } else { ThreadKeepsInv(s, e); }
  }

  /** The lifecycle invariant holds in every state of every interleaving. */
  lemma {:induction false} RunKeepsInv(s: System, es: seq<Event>)
    requires Initial(s) && Legal(s, es)
    ensures Inv(Exec(s, es))
  {
    if es != [] {
      RunKeepsInv(s, es[..|es| - 1]);
      StepKeepsInv(Exec(s, es[..|es| - 1]), es[|es| - 1]);
    }
  }

  // ------------------------------------------------------- absorbing outcomes

  /** Nothing is in flight for this record: it is finished, not pending, and no thread is between
      the sections of _mark_finished. */
  predicate Settled(s: System) {
    Finished(s.record) && !s.record.pendingApproval && s.between == 0
  }

  function WithoutLogs(r: Record): (t: Record) {
    r.(logs := [])
  }

  lemma SettledStep(s: System, e: Event)
    requires Inv(s) && Settled(s) && Enabled(s, e)
    ensures Settled(Apply(s, e)) && WithoutLogs(Apply(s, e).record) == WithoutLogs(s.record)
  {
  }

  /** A settled record never changes again but for its log: "succeeded", "failed", "cancelled" and
      "rejected" are absorbing against every later call and every late capture thread. */
  lemma {:induction false} SettledForGood(s: System, es: seq<Event>)
    requires Inv(s) && Settled(s) && Legal(s, es)
    ensures Settled(Exec(s, es)) && WithoutLogs(Exec(s, es).record) == WithoutLogs(s.record) && Inv(Exec(s, es))
  {
    if es != [] {
      SettledForGood(s, es[..|es| - 1]);
      StepKeepsInv(Exec(s, es[..|es| - 1]), es[|es| - 1]);
      SettledStep(Exec(s, es[..|es| - 1]), es[|es| - 1]);
    }
  }

  lemma CancelledStep(s: System, e: Event)
    requires Inv(s) && Enabled(s, e)
    ensures s.record.cancelRequested ==> Apply(s, e).record.cancelRequested
    ensures s.record.status == Cancelled ==> Apply(s, e).record.status == Cancelled
    ensures s.record.status == Rejected ==> Settled(s) && Apply(s, e).record.status == Rejected
  {
  }

  /** "cancelled" absorbs even between the sections, and a cancellation request is never withdrawn. */
  lemma {:induction false} CancellationIsFinal(s: System, es: seq<Event>)
    requires Inv(s) && Legal(s, es)
    ensures s.record.cancelRequested ==> Exec(s, es).record.cancelRequested
    ensures s.record.status == Cancelled ==> Exec(s, es).record.status == Cancelled
    ensures s.record.status == Rejected ==> Exec(s, es).record.status == Rejected
    ensures Inv(Exec(s, es))
  {
    if es != [] {
      CancellationIsFinal(s, es[..|es| - 1]);
      StepKeepsInv(Exec(s, es[..|es| - 1]), es[|es| - 1]);
      CancelledStep(Exec(s, es[..|es| - 1]), es[|es| - 1]);
    }
  }

  /** A run whose spawn raised is never finished: a cancellation makes it "cancelling" for ever. */
  lemma {:induction false} OrphanNeverFinishes(s: System, es: seq<Event>)
    requires Inv(s) && Orphaned(s) && Legal(s, es)
    ensures Orphaned(Exec(s, es)) && Inv(Exec(s, es)) && Exec(s, es).record.status in {Running, Cancelling}
  {
    if es != [] {
      OrphanNeverFinishes(s, es[..|es| - 1]);
      StepKeepsInv(Exec(s, es[..|es| - 1]), es[|es| - 1]);
      OrphanStep(Exec(s, es[..|es| - 1]), es[|es| - 1]);
    }
  }

  ghost predicate FinishesBy(s: System, es: seq<Event>) {
    Legal(s, es) && Finished(Exec(s, es).record)
  }

  /** A run can still be finished, or already is, exactly if a process was once spawned for it. */
  lemma FinishableExactly(s: System)
    requires Inv(s)
    ensures (exists es :: FinishesBy(s, es)) <==> s.record.process.Some?
  {
    if s.record.process.Some? {
      var es := WayToFinish(s);
    } else {
      forall es | Legal(s, es) ensures !FinishesBy(s, es) { OrphanNeverFinishes(s, es); }
    }
  }

  lemma RefreshFinishes(s: System, e: Event)
    requires e.Refresh? && Poll(s).Some? && !Finished(s.record)
    ensures Finished(Apply(s, e).record)
  {
  }

  lemma ExitIsSeen(s: System, p: nat)
    requires s.record.process == Some(p) && p < s.spawned && p !in s.exits
    ensures Enabled(s, ProcessExits(p, 0))
    ensures Poll(Apply(s, ProcessExits(p, 0))).Some? && Apply(s, ProcessExits(p, 0)).record == s.record
  {
  }

  lemma WayToFinish(s: System) returns (es: seq<Event>)
    requires Inv(s) && s.record.process.Some?
    ensures FinishesBy(s, es)
  {
    var refresh := Refresh(ApprovalState(false, "", NO_DETAILS, [], "", ""), 0);
    es := [];
    if Finished(s.record) { return; }
    if Poll(s).None? {
      var exit := ProcessExits(s.record.process.value, 0);
      ExitIsSeen(s, s.record.process.value);
      OneMore(s, es, exit);
      es := es + [exit];
    }
    RefreshFinishes(Exec(s, es), refresh);
    OneMore(s, es, refresh);
    es := es + [refresh];
  }

  /** The state a raising spawn leaves is a beginning, and it is orphaned. */
  lemma OrphansBegin(argv: seq<string>, now: int, threadId: string, checkpointId: string)
    ensures var s := System(NewRecord(argv, now, threadId, checkpointId), 0, map[], 0, multiset{}, 0);
            Initial(s) && Orphaned(s) && Inv(s)
  {
    var r := NewRecord(argv, now, threadId, checkpointId);
    assert StartsWith(System(r, 0, map[], 0, multiset{}, 0), r);
  }

  lemma OrphanStep(s: System, e: Event)
    requires Inv(s) && Orphaned(s) && Enabled(s, e)
    ensures Orphaned(Apply(s, e))
  {
  }

  /** "running" is entered again only by approving a record that is, after its refresh, suspended;
      and exactly such an approval spawns a process. */
  lemma RunningOnlyByApproval(s: System, e: Event)
    requires Inv(s) && Enabled(s, e)
    ensures Apply(s, e).record.status == Running && s.record.status != Running ==>
              e.Approve? && AfterRefresh(s, e.trace, e.now).status == Suspended
    ensures Apply(s, e).spawned > s.spawned <==>
              e.Approve? && ApprovalProblem(AfterRefresh(s, e.trace, e.now), e.provided).None?
    ensures Apply(s, e).spawned > s.spawned ==>
              AfterRefresh(s, e.trace, e.now).status == Suspended && Apply(s, e).record.process == Some(s.spawned)
  {
  }

  // ------------------------------------------------- whose exit code is it?

  /** The recorded exit code is the one of the record's own process. */
  predicate Attributed(s: System) {
    Finished(s.record) && s.record.status != Rejected ==>
      && s.record.process.Some? && s.record.process.value in s.exits
      && s.record.exitCode == Some(s.exits[s.record.process.value])
  }

  /** A capture thread of an earlier process finishes the record of a process that has not ended,
      or that ended with another code. */
  predicate StaleFinish(s: System, e: Event) {
    e.MarkFirst? && !Finished(s.record) && e.process in s.exits
    && (Poll(s).None? || Poll(s).value != s.exits[e.process])
  }

  /** One event breaks the attribution exactly if it is a stale finish. */
  lemma AttributionBreaksExactly(s: System, e: Event)
    requires Inv(s) && Attributed(s) && Enabled(s, e)
    ensures Attributed(Apply(s, e)) <==> !StaleFinish(s, e)
  {
    if e.MarkFirst? { FinishAttributes(s, e); } else { OthersAttribute(s, e); }
  }

  lemma FinishAttributes(s: System, e: Event)
    requires Inv(s) && Attributed(s) && Enabled(s, e) && e.MarkFirst?
    ensures Attributed(Apply(s, e)) <==> !StaleFinish(s, e)
  {
  }

  lemma OthersAttribute(s: System, e: Event)
    requires Inv(s) && Attributed(s) && Enabled(s, e) && !e.MarkFirst?
    ensures Attributed(Apply(s, e))
  {
  }

  /** Every capture thread already counted has passed, or waits for, the record's own process. */
  predicate NoStaleThread(s: System) {
    forall p :: p in s.capturing ==> Some(p) == s.record.process
  }

  /** approve_run is called only when no capture thread of an earlier process is left. */
  ghost predicate QuietApprovals(s: System, es: seq<Event>)
    requires Legal(s, es)
  {
    es == [] || (QuietApprovals(s, es[..|es| - 1])
                 && (es[|es| - 1].Approve? ==> Exec(s, es[..|es| - 1]).capturing == multiset{}))
  }

  /** When each resume waits for the capture threads before it, the exit code is never another's. */
  lemma {:induction false} AttributedWhenQuiet(s: System, es: seq<Event>)
    requires Initial(s) && Legal(s, es) && QuietApprovals(s, es)
    ensures NoStaleThread(Exec(s, es)) && Attributed(Exec(s, es))
  {
    if es != [] {
      var front := es[..|es| - 1];
      AttributedWhenQuiet(s, front);
      RunKeepsInv(s, front);
      QuietStep(Exec(s, front), es[|es| - 1]);
    }
  }

  lemma QuietStep(t: System, e: Event)
    requires Inv(t) && NoStaleThread(t) && Attributed(t) && Enabled(t, e)
    requires e.Approve? ==> t.capturing == multiset{}
    ensures NoStaleThread(Apply(t, e)) && Attributed(Apply(t, e))
  {
    AttributionBreaksExactly(t, e);
    OnlyOwnThreads(t, e);
  }

  lemma OnlyOwnThreads(t: System, e: Event)
    requires Inv(t) && NoStaleThread(t) && Enabled(t, e)
    requires e.Approve? ==> t.capturing == multiset{}
    ensures NoStaleThread(Apply(t, e))
  {
    match e
    case MarkFirst(p, _) => assert forall q :: q in t.capturing - multiset{p} ==> q in t.capturing;
    case _ =>
  }

  /** The exit code is the record's own in every state of the run. */
  ghost predicate AlwaysAttributed(s: System, es: seq<Event>)
    requires Legal(s, es)
  {
    Attributed(Exec(s, es)) && (es == [] || AlwaysAttributed(s, es[..|es| - 1]))
  }

  ghost predicate HasStaleFinish(s: System, es: seq<Event>)
    requires Legal(s, es)
  {
    es != [] && (HasStaleFinish(s, es[..|es| - 1]) || StaleFinish(Exec(s, es[..|es| - 1]), es[|es| - 1]))
  }

  /** Over whole runs it is the record's own throughout exactly if no stale finish happens. */
  lemma {:induction false} AlwaysAttributedExactly(s: System, es: seq<Event>)
    requires Initial(s) && Legal(s, es)
    ensures AlwaysAttributed(s, es) <==> !HasStaleFinish(s, es)
  {
    if es != [] {
      var front := es[..|es| - 1];
      AlwaysAttributedExactly(s, front);
      RunKeepsInv(s, front);
      if AlwaysAttributed(s, front) { AttributionBreaksExactly(Exec(s, front), es[|es| - 1]); }
    }
  }

  /** The approval finds the record suspended, passes the checks and resumes it. */
  predicate Resumes(s: System, e: Event) {
    e.Approve? && ApprovalProblem(AfterRefresh(s, e.trace, e.now), e.provided).None?
  }

  /** A continuation without further approvals after which the exit code is another process's. */
  ghost predicate Misattributes(s: System, es: seq<Event>) {
    Legal(s, es) && (forall e :: e in es ==> !e.Approve?) && !Attributed(Exec(s, es))
  }

  /** Resuming puts the exit code at risk exactly if some capture thread is still at work then. */
  lemma ResumeIsRiskyExactly(s: System, e: Event)
    requires Inv(s) && Resumes(s, e)
    ensures (exists es :: Misattributes(Apply(s, e), es)) <==> s.capturing != multiset{}
  {
    ResumedState(s, e);
    var t := Apply(s, e);
    CallKeepsInv(s, e);
    if s.capturing != multiset{} {
      var p :| p in s.capturing;
      var es := LateFinish(t, p);
    } else {
      forall es: seq<Event> | Legal(t, es) && (forall x :: x in es ==> !x.Approve?) ensures !Misattributes(t, es) {
        StaysAttributed(t, es);
      }
    }
  }

  lemma ResumedState(s: System, e: Event)
    requires Inv(s) && Resumes(s, e)
    ensures var t := Apply(s, e);
            && t.record.process == Some(s.spawned) && s.spawned !in t.exits && !Finished(t.record)
            && t.capturing == s.capturing && forall p :: p in s.capturing ==> p < s.spawned
  {
  }

  /** The thread of process p marks the record finished while its own process still runs. */
  lemma LateFinish(t: System, p: nat) returns (es: seq<Event>)
    requires Inv(t) && p in t.capturing && !Finished(t.record) && Some(p) != t.record.process && Poll(t).None?
    ensures Misattributes(t, es)
  {
    es := [];
    if p !in t.exits {
      OneMore(t, es, ProcessExits(p, 0));
      es := es + [ProcessExits(p, 0)];
    }
    var u := Exec(t, es);
    AttributionBreaksExactly(u, MarkFirst(p, 0));
    OneMore(t, es, MarkFirst(p, 0));
    es := es + [MarkFirst(p, 0)];
  }

  lemma {:induction false} StaysAttributed(t: System, es: seq<Event>)
    requires Inv(t) && NoStaleThread(t) && Attributed(t) && Legal(t, es) && forall e :: e in es ==> !e.Approve?
    ensures var u := Exec(t, es); Inv(u) && NoStaleThread(u) && Attributed(u)
  {
    if es != [] {
      var front, e := es[..|es| - 1], es[|es| - 1];
      StaysAttributed(t, front);
      assert e in es;
      StepKeepsInv(Exec(t, front), e);
      QuietStep(Exec(t, front), e);
    }
  }

  /** A trace that asks for approval and names its challenge and its checkpoint. */
  predicate Asks(a: ApprovalState) {
    a.pending && a.details.challengeId.Some? && a.threadId != "" && a.checkpointId != ""
  }

  /** approve_run on a run whose process is over but whose capture thread is late: its own refresh
      suspends the record and the approval resumes it at once. */
  lemma ApprovedAtOnce(s: System, e: Event)
    requires e.Approve? && Asks(e.trace) && e.provided.None?
    requires !Finished(s.record) && !s.record.cancelRequested && Poll(s).Some?
    ensures Apply(s, e).record.process == Some(s.spawned) && !Finished(Apply(s, e).record)
    ensures Apply(s, e).record.status == Running
    ensures Apply(s, e).capturing == s.capturing && Apply(s, e).exits == s.exits
  {
    var t := AfterRefresh(s, e.trace, e.now);
    assert t == WithApproval(Ended(s.record, Poll(s).value, e.now), e.trace);
    assert t.pendingApproval && t.pendingDetails == e.trace.details;
  }

  /** Without that wait the promise fails: process 0 ends and an approval starts process 1 before the
      capture thread of process 0 gets to mark the run finished; that thread then finishes the record
      while process 1 still runs. */
  lemma StaleThreadFinishesResumedRun(s: System, asks: ApprovalState, approve: Event, code: int)
    requires Initial(s) && s.record.process.Some? && Asks(asks)
    requires approve.Approve? && approve.trace == asks && approve.provided.None?
    ensures var es := [ThreadStarts, ProcessExits(0, code), approve, MarkFirst(0, approve.now)];
            && Legal(s, es)
            && Exec(s, es).record.process == Some(1) && 1 !in Exec(s, es).exits
            && Exec(s, es).record.exitCode == Some(code) && !Attributed(Exec(s, es))
  {
    var e0, e1, e3 := ThreadStarts, ProcessExits(0, code), MarkFirst(0, approve.now);
    FirstExit(s, code);
    var s2 := Exec(s, [e0, e1]);
    ApprovedAtOnce(s2, approve);
    OneMore(s, [e0, e1], approve);
    assert [e0, e1] + [approve] == [e0, e1, approve];
    LateMark(Exec(s, [e0, e1, approve]), e3, code);
    OneMore(s, [e0, e1, approve], e3);
    assert [e0, e1, approve] + [e3] == [e0, e1, approve, e3];
  }

  /** The capture thread of process 0 waits for it, and it ends. */
  lemma FirstExit(s: System, code: int)
    requires Initial(s) && s.record.process.Some?
    ensures Legal(s, [ThreadStarts, ProcessExits(0, code)])
    ensures var t := Exec(s, [ThreadStarts, ProcessExits(0, code)]);
            && t.record == s.record && t.record.process == Some(0) && t.record.status == Running
                && !t.record.cancelRequested
            && !Finished(t.record) && t.exits == map[0 := code] && 0 in t.capturing && t.spawned == 1
  {
    OneMore(s, [], ThreadStarts);
    OneMore(s, [ThreadStarts], ProcessExits(0, code));
    assert [] + [ThreadStarts] == [ThreadStarts];
    assert [ThreadStarts] + [ProcessExits(0, code)] == [ThreadStarts, ProcessExits(0, code)];
  }

  lemma FourEvents(s: System, e0: Event, e1: Event, e2: Event, e3: Event, t: System)
    requires Enabled(s, e0) && Enabled(Apply(s, e0), e1) && Enabled(Apply(Apply(s, e0), e1), e2)
    requires Enabled(Apply(Apply(Apply(s, e0), e1), e2), e3) && Apply(Apply(Apply(Apply(s, e0), e1), e2), e3) == t
    ensures Legal(s, [e0, e1, e2, e3]) && Exec(s, [e0, e1, e2, e3]) == t
  {
    OneMore(s, [], e0);
    assert [] + [e0] == [e0] && [e0] + [e1] == [e0, e1] && [e0, e1] + [e2] == [e0, e1, e2];
    OneMore(s, [e0], e1);
    OneMore(s, [e0, e1], e2);
    assert [e0, e1, e2] + [e3] == [e0, e1, e2, e3];
    OneMore(s, [e0, e1, e2], e3);
  }

  lemma ThreadWaits(s: System, p: nat, code: int)
    requires s.unstarted > 0 && s.record.process == Some(p) && p < s.spawned && p !in s.exits
    ensures Enabled(s, ThreadStarts) && Enabled(Apply(s, ThreadStarts), ProcessExits(p, code))
    ensures var t := Apply(Apply(s, ThreadStarts), ProcessExits(p, code));
            t.record == s.record && p in t.capturing && p in t.exits && t.exits[p] == code
  {
  }

  lemma ThreadFinishes(s: System, p: nat, code: int, trace: ApprovalState, now: int)
    requires p in s.capturing && p in s.exits && s.exits[p] == code
    requires !Finished(s.record) && !s.record.cancelRequested
    ensures Enabled(s, MarkFirst(p, now)) && Enabled(Apply(s, MarkFirst(p, now)), MarkSecond(trace))
    ensures var r := Apply(Apply(s, MarkFirst(p, now)), MarkSecond(trace)).record;
            && r.process == s.record.process && r.exitCode == Some(code) && r.finishedAt == Some(now)
            && r.status == (if trace.pending then Suspended else if code == 0 then Succeeded else Failed)
  {
  }

  /** What the promise is for: a resumed run is finished by its own thread, with its own exit code, and is
      suspended again exactly if its trace asks for approval again. */
  lemma ResumedRunFinishes(s: System, e: Event, code: int, trace: ApprovalState, now: int)
    requires Inv(s) && Resumes(s, e)
    ensures var es := [ThreadStarts, ProcessExits(s.spawned, code), MarkFirst(s.spawned, now), MarkSecond(trace)];
            && Legal(Apply(s, e), es)
            && var r := Exec(Apply(s, e), es).record;
               && r.process == Some(s.spawned) && r.exitCode == Some(code) && r.finishedAt == Some(now)
               && r.status == (if trace.pending then Suspended else if code == 0 then Succeeded else Failed)
  {
    var t, p := Apply(s, e), s.spawned;
    ResumedState(s, e);
    ResumedIsWatched(s, e);
    ThreadWaits(t, p, code);
    var u := Apply(Apply(t, ThreadStarts), ProcessExits(p, code));
    ThreadFinishes(u, p, code, trace, now);
    var v := Apply(Apply(u, MarkFirst(p, now)), MarkSecond(trace));
    FourEvents(t, ThreadStarts, ProcessExits(p, code), MarkFirst(p, now), MarkSecond(trace), v);
  }

  lemma ResumedIsWatched(s: System, e: Event)
    requires Inv(s) && Resumes(s, e)
    ensures var t := Apply(s, e); t.unstarted > 0 && t.spawned == s.spawned + 1 && !t.record.cancelRequested
  {
    RefreshKeepsRecord(s.record, Poll(s), e.trace, e.now);
  }

  lemma LateMark(s: System, e: Event, code: int)
    requires e.MarkFirst? && Enabled(s, e) && !Finished(s.record) && s.exits == map[0 := code] && e.process == 0
    requires s.record.process == Some(1)
    ensures var t := Apply(s, e);
            t.record.process == Some(1) && 1 !in t.exits && t.record.exitCode == Some(code) && !Attributed(t)
  {
  }

  lemma OneMore(s: System, es: seq<Event>, e: Event)
    requires Legal(s, es) && Enabled(Exec(s, es), e)
    ensures Legal(s, es + [e]) && Exec(s, es + [e]) == Apply(Exec(s, es), e)
  {
    assert (es + [e])[..|es|] == es;
  }
}
