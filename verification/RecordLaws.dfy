/** What the calls do to a record, field by field. */
module RecordLaws {
  import opened Wrappers
  import opened RunRecords

  // -------------------------------------------------------------------- refresh

  /** The fields that only an approval, a log line or a cancellation changes. */
  predicate SameRun(r: Record, t: Record) {
    && t.argv == r.argv && t.process == r.process && t.startedAt == r.startedAt
    && t.logs == r.logs && t.cancelRequested == r.cancelRequested
  }

  /** What a trace leaves in a record. */
  predicate ReadsTrace(r: Record, a: ApprovalState, t: Record) {
    && t.threadId == (if a.threadId == "" then r.threadId else a.threadId)
    && t.checkpointId == (if a.checkpointId == "" then r.checkpointId else a.checkpointId)
    && t.approvalHistory == (if a.history == [] then r.approvalHistory else a.history)
    && t.pendingApproval == (a.pending && !r.cancelRequested)
    && (t.pendingApproval ==> t.pendingSummary == a.summary && t.pendingDetails == a.details)
    && (!t.pendingApproval ==> t.pendingSummary == "" && t.pendingDetails.challengeId.None?)
  }

  /** A record that create_run makes: its process and everything after it are still to come. */
  lemma Beginning(argv: seq<string>, now: int, threadId: string, checkpointId: string)
    ensures var t := NewRecord(argv, now, threadId, checkpointId);
            && t.argv == argv && t.startedAt == now && t.threadId == threadId && t.checkpointId == checkpointId
            && t.status == Running && t.process.None? && t.finishedAt.None? && t.exitCode.None?
            && t.logs == [] && t.approvalHistory == [] && !t.cancelRequested
            && !t.pendingApproval && t.pendingSummary == "" && t.pendingDetails.challengeId.None?
  {
  }

  /** A refresh that finds the process over finishes an unfinished record: cancelled if that was requested,
      else suspended if the trace asks for approval, else succeeded exactly if the exit code is 0. Any other
      refresh changes nothing. */
  lemma EndsByItsCode(r: Record, poll: Option<int>, a: ApprovalState, now: int)
    ensures var t := Refreshed(r, poll, a, now);
            if r.finishedAt.None? && r.process.Some? && poll.Some? then
              && SameRun(r, t) && ReadsTrace(r, a, t) && t.exitCode == poll && t.finishedAt == Some(now)
              && (t.status == Cancelled <==> r.cancelRequested)
              && (t.status == Suspended <==> !r.cancelRequested && a.pending)
              && (t.status == Succeeded <==> !r.cancelRequested && !a.pending && poll == Some(0))
              && (t.status == Failed <==> !r.cancelRequested && !a.pending && poll != Some(0))
            else t == r
  {
  }

  /** The two sections of a capture thread, with nothing in between, end a record as a refresh does. */
  lemma ThreadEndsAlike(r: Record, code: int, a: ApprovalState, now: int)
    requires r.finishedAt.None? && r.process.Some?
    ensures WithApproval(Ended(r, code, now), a) == Refreshed(r, Some(code), a, now)
  {
  }

  /** Between them the record is finished and says nothing of approval yet. */
  lemma FirstSection(r: Record, code: int, now: int)
    ensures var t := Ended(r, code, now);
            && SameRun(r, t) && t.exitCode == Some(code) && t.finishedAt == Some(now)
            && t.status == (if r.cancelRequested then Cancelled else if code == 0 then Succeeded else Failed)
            && t.threadId == r.threadId && t.checkpointId == r.checkpointId
            && t.approvalHistory == r.approvalHistory && t.pendingApproval == r.pendingApproval
            && t.pendingSummary == r.pendingSummary && t.pendingDetails == r.pendingDetails
  {
  }

  lemma SecondSection(r: Record, a: ApprovalState)
    ensures var t := WithApproval(r, a);
            && SameRun(r, t) && ReadsTrace(r, a, t) && t.exitCode == r.exitCode && t.finishedAt == r.finishedAt
            && t.status == (if a.pending && !r.cancelRequested then Suspended else r.status)
  {
  }

  // ------------------------------------------------------------------ decisions

  /** A cancellation reaches exactly the unfinished records that were not cancelled yet. */
  lemma CancelReaches(r: Record)
    ensures var t := CancelledBy(r);
            if r.finishedAt.None? && !r.cancelRequested then
              t.cancelRequested && t.status == Cancelling && t.(cancelRequested := false, status := r.status) == r
            else t == r
  {
  }

  /** Which check an approval fails, if any. */
  lemma ApprovalChecks(r: Record, provided: Option<string>)
    ensures var e := ApprovalProblem(r, provided);
            var challenge := r.pendingDetails.challengeId;
            && (e == Some(ApprovalNotPending) <==> !r.pendingApproval)
            && (e == Some(ApprovalChallengeMissing) <==> r.pendingApproval && challenge.None?)
            && (e == Some(ChallengeIdMismatch) <==>
                  r.pendingApproval && challenge.Some? && provided.Some? && provided.value != challenge.value)
            && (e == Some(ResumeCheckpointMissing) <==>
                  r.pendingApproval && challenge.Some? && (provided.None? || provided.value == challenge.value)
                  && (r.threadId == "" || r.checkpointId == ""))
            && (e == None <==>
                  r.pendingApproval && challenge.Some? && (provided.None? || provided.value == challenge.value)
                  && r.threadId != "" && r.checkpointId != "")
  {
  }

  /** An approved record starts over with its new process, and keeps who approved what, why and when. */
  lemma Resumption(r: Record, actor: string, rationale: string, now: int, process: nat)
    requires r.pendingDetails.challengeId.Some?
    ensures var t := ResumedBy(r, actor, rationale, now, process);
            && t.process == Some(process) && t.startedAt == now && t.finishedAt == None && t.exitCode == None
            && t.status == Running && t.cancelRequested == r.cancelRequested
            && !t.pendingApproval && t.pendingSummary == "" && t.pendingDetails.challengeId.None?
            && t.threadId == r.threadId && t.checkpointId == r.checkpointId
            && t.approvalHistory == r.approvalHistory
                 + [ApprovalEntry(Approved, actor, rationale, r.pendingDetails.challengeId.value, now)]
            && t.logs == r.logs + ["[approval] approved by " + actor]
            && t.argv == ResumeArgv(r.argv, r.threadId, r.checkpointId)
  {
  }

  /** A rejected record is over with exit code 1, and keeps who rejected what, why and when. */
  lemma Rejection(r: Record, actor: string, rationale: string, now: int)
    ensures var t := RejectedBy(r, actor, rationale, now);
            && t.finishedAt == Some(now) && t.exitCode == Some(1) && t.status == Rejected
            && !t.pendingApproval && t.pendingSummary == "" && t.pendingDetails.challengeId.None?
            && t.process == r.process && t.startedAt == r.startedAt && t.argv == r.argv
            && t.cancelRequested == r.cancelRequested && t.threadId == r.threadId && t.checkpointId == r.checkpointId
            && t.approvalHistory == r.approvalHistory
                 + [ApprovalEntry(Refused, actor, rationale,
                                  if r.pendingDetails.challengeId.Some? then r.pendingDetails.challengeId.value else "",
                                  now)]
            && t.logs == r.logs + ["[approval] rejected by " + actor]
  {
  }

  // ---------------------------------------------------------------- resume argv

  predicate FlagFree(argv: seq<string>) {
    "--resume" !in argv && "--thread-id" !in argv && "--checkpoint-id" !in argv
  }

  /** Arguments that are no resume flags stay, in their order. */
  lemma {:induction false} OthersStay(a: seq<string>, tail: seq<string>)
    requires FlagFree(a)
    ensures Stripped(a + tail) == a + Stripped(tail)
  {
    if a == [] {
      assert a + tail == tail;
    } else {
      assert (a + tail)[1..] == a[1..] + tail;
      OthersStay(a[1..], tail);
    }
  }

  lemma FlagGoes(tail: seq<string>)
    ensures Stripped(["--resume"] + tail) == Stripped(tail)
  {
    assert (["--resume"] + tail)[1..] == tail;
  }

  lemma FlagGoesWithValue(flag: string, value: string, tail: seq<string>)
    requires flag == "--thread-id" || flag == "--checkpoint-id"
    ensures Stripped([flag, value] + tail) == Stripped(tail)
  {
    assert ([flag, value] + tail)[2..] == tail && ([flag, value] + tail)[0] == flag;
    assert flag[2] != "--resume"[2];
  }

  /** The arguments of a resume: the old ones without the flags of an earlier resume, wherever these stood,
      and the new flags behind them. */
  lemma ResumeArgvExactly(a: seq<string>, b: seq<string>, t1: string, c1: string,
                          threadId: string, checkpointId: string)
    requires FlagFree(a) && FlagFree(b) && threadId != "" && checkpointId != ""
    ensures ResumeArgv(a + (["--resume"] + (["--thread-id", t1] + (["--checkpoint-id", c1] + b))),
                       threadId, checkpointId)
              == a + b + ["--resume", "--thread-id", threadId, "--checkpoint-id", checkpointId]
  {
    var cb := ["--checkpoint-id", c1] + b;
    var tcb := ["--thread-id", t1] + cb;
    OthersStay(a, ["--resume"] + tcb);
    FlagGoes(tcb);
    FlagGoesWithValue("--thread-id", t1, cb);
    FlagGoesWithValue("--checkpoint-id", c1, b);
    OthersStay(b, []);
    assert b + [] == b;
    NewFlags(threadId, checkpointId);
  }

  lemma NewFlags(threadId: string, checkpointId: string)
    requires threadId != "" && checkpointId != ""
    ensures ResumeFlags(threadId, checkpointId)
              == ["--resume", "--thread-id", threadId, "--checkpoint-id", checkpointId]
  {
  }
}
