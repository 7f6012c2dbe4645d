/** The record of one run and the critical sections of the remote API that change it. */
module RunRecords {
  import opened Wrappers

  datatype RunStatus = Running | Cancelling | Cancelled | Succeeded | Failed | Suspended | Rejected

  datatype Decision = Approved | Refused

  datatype ApprovalEntry =
      ApprovalEntry(decision: Decision, actor: string, rationale: string, challengeId: string, ts: int)

  /** The details of a pending approval; an empty dict has no challenge. */
  datatype Details = Details(challengeId: Option<string>)

  const NO_DETAILS := Details(None)

  /** What a trace file says about approval; a missing or unreadable trace says nothing: it is not
      pending and every other part is empty. */
  datatype ApprovalState = ApprovalState(
    pending: bool, summary: string, details: Details, history: seq<ApprovalEntry>, threadId: string,
    checkpointId: string)

  /** The fields of a record that these operations read or write; a process is named by a number. A record
      has no process until one was spawned for it. */
  datatype Record = Record(
    argv: seq<string>,
    process: Option<nat>,
    startedAt: int,
    status: RunStatus,
    finishedAt: Option<int>,
    exitCode: Option<int>,
    logs: seq<string>,
    cancelRequested: bool,
    threadId: string,
    checkpointId: string,
    pendingApproval: bool,
    pendingSummary: string,
    pendingDetails: Details,
    approvalHistory: seq<ApprovalEntry>)

  datatype ApiError = ApprovalNotPending | ApprovalChallengeMissing | ChallengeIdMismatch | ResumeCheckpointMissing

  // -------------------------------------------------------- meaning as functions

  function Cleared(r: Record): (s: Record) {
    r.(pendingApproval := false, pendingSummary := "", pendingDetails := NO_DETAILS)
  }

  /** The process is over: exit code, time and status. */
  function Ended(r: Record, code: int, now: int): (s: Record) {
    r.(exitCode := Some(code), finishedAt := Some(now),
       status := if r.cancelRequested then Cancelled else if code == 0 then Succeeded else Failed)
  }

  /** _apply_approval_state_to_record */
  function WithApproval(r: Record, a: ApprovalState): (s: Record) {
    var t := r.(threadId := if a.threadId != "" then a.threadId else r.threadId,
                checkpointId := if a.checkpointId != "" then a.checkpointId else r.checkpointId,
                approvalHistory := if a.history != [] then a.history else r.approvalHistory);
    if a.pending && !r.cancelRequested then
      t.(status := Suspended, pendingApproval := true, pendingSummary := a.summary, pendingDetails := a.details)
    else Cleared(t)
  }

  /** _refresh_record_locked, where `poll` is what process.poll() returns. */
  function Refreshed(r: Record, poll: Option<int>, a: ApprovalState, now: int): (s: Record) {
    if r.finishedAt.Some? || r.process.None? || poll.None? then r else WithApproval(Ended(r, poll.value, now), a)
  }

  function CancelledBy(r: Record): (s: Record) {
    if r.finishedAt.Some? || r.cancelRequested then r else r.(cancelRequested := true, status := Cancelling)
  }

  /** The checks of approve_run, in order. */
  function ApprovalProblem(r: Record, provided: Option<string>): (e: Option<ApiError>) {
    if !r.pendingApproval then Some(ApprovalNotPending)
    else if r.pendingDetails.challengeId.None? then Some(ApprovalChallengeMissing)
    else if provided.Some? && provided != r.pendingDetails.challengeId then Some(ChallengeIdMismatch)
    else if r.threadId == "" || r.checkpointId == "" then Some(ResumeCheckpointMissing)
    else None
  }

  function ResumedBy(r: Record, actor: string, rationale: string, now: int, process: nat): (s: Record)
    requires r.pendingDetails.challengeId.Some?
  {
    Cleared(r).(argv := ResumeArgv(r.argv, r.threadId, r.checkpointId), process := Some(process), startedAt := now,
                finishedAt := None, exitCode := None, status := Running,
                approvalHistory := r.approvalHistory
                  + [ApprovalEntry(Approved, actor, rationale, r.pendingDetails.challengeId.value, now)],
                logs := r.logs + ["[approval] approved by " + actor])
  }

  function RejectedBy(r: Record, actor: string, rationale: string, now: int): (s: Record) {
    var challenge := if r.pendingDetails.challengeId.Some? then r.pendingDetails.challengeId.value else "";
    Cleared(r).(finishedAt := Some(now), exitCode := Some(1), status := Rejected,
                approvalHistory := r.approvalHistory + [ApprovalEntry(Refused, actor, rationale, challenge, now)],
                logs := r.logs + ["[approval] rejected by " + actor])
  }

  // ------------------------------------------------------------- resume argv

  /** argv without the resume flags and their values. */
  function Stripped(argv: seq<string>): (r: seq<string>)
    decreases |argv|
  {
    if argv == [] then []
    else if argv[0] == "--resume" then Stripped(argv[1..])
    else if argv[0] == "--thread-id" || argv[0] == "--checkpoint-id" then
      (if |argv| == 1 then [] else Stripped(argv[2..]))
    else [argv[0]] + Stripped(argv[1..])
  }

  function ResumeFlags(threadId: string, checkpointId: string): (r: seq<string>) {
    ["--resume"]
    + (if threadId != "" then ["--thread-id", threadId] else [])
    + (if checkpointId != "" then ["--checkpoint-id", checkpointId] else [])
  }

  function ResumeArgv(argv: seq<string>, threadId: string, checkpointId: string): (r: seq<string>) {
    Stripped(argv) + ResumeFlags(threadId, checkpointId)
  }

  lemma FlagsVanish(threadId: string, checkpointId: string)
    ensures Stripped(ResumeFlags(threadId, checkpointId)) == []
  {
    var tail := if checkpointId != "" then ["--checkpoint-id", checkpointId] else [];
    assert Stripped(tail) == [];
    var mid := (if threadId != "" then ["--thread-id", threadId] else []) + tail;
    if threadId != "" {
      assert mid[2..] == tail;
    } else {
      assert mid == tail;
    }
    assert ResumeFlags(threadId, checkpointId)[1..] == mid;
  }

  lemma {:induction false} StrippedThenFlags(argv: seq<string>, tail: seq<string>)
    ensures Stripped(Stripped(argv) + tail) == Stripped(argv) + Stripped(tail)
    decreases |argv|
  {
    if argv == [] {
      assert Stripped(argv) + tail == tail;
    } else if argv[0] == "--resume" {
      StrippedThenFlags(argv[1..], tail);
    } else if argv[0] == "--thread-id" || argv[0] == "--checkpoint-id" {
      if |argv| == 1 {
        assert Stripped(argv) + tail == tail;
      } else {
        StrippedThenFlags(argv[2..], tail);
      }
    } else {
      var rest := Stripped(argv[1..]);
      StrippedThenFlags(argv[1..], tail);
      assert ([argv[0]] + rest + tail)[1..] == rest + tail;
    }
  }

  /** Resuming again replaces the flags of the earlier resume instead of piling up. */
  lemma ResumeArgvReplaces(argv: seq<string>, t1: string, c1: string, t2: string, c2: string)
    ensures ResumeArgv(ResumeArgv(argv, t1, c1), t2, c2) == ResumeArgv(argv, t2, c2)
  {
    StrippedThenFlags(argv, ResumeFlags(t1, c1));
    FlagsVanish(t1, c1);
  }

  // ------------------------------------------------------------- the object

  class RunRecord {
    var argv: seq<string>
    var process: Option<nat>
    var startedAt: int
    var status: RunStatus
    var finishedAt: Option<int>
    var exitCode: Option<int>
    var logs: seq<string>
    var cancelRequested: bool
    var threadId: string
    var checkpointId: string
    var pendingApproval: bool
    var pendingSummary: string
    var pendingDetails: Details
    var approvalHistory: seq<ApprovalEntry>

    function View(): (r: Record)
      reads this
    {
      Record(argv, process, startedAt, status, finishedAt, exitCode, logs, cancelRequested, threadId, checkpointId,
             pendingApproval, pendingSummary, pendingDetails, approvalHistory)
    }

    /** create_run puts the record in place before it spawns; if the spawn raises, the record stays so. */
    constructor (argv: seq<string>, now: int, threadId: string, checkpointId: string)
      ensures View() == NewRecord(argv, now, threadId, checkpointId)
    {
      this.argv, process, startedAt, status, finishedAt, exitCode := argv, None, now, Running, None, None;
      logs, cancelRequested, this.threadId, this.checkpointId := [], false, threadId, checkpointId;
      pendingApproval, pendingSummary, pendingDetails, approvalHistory := false, "", NO_DETAILS, [];
    }

    method Spawned(spawned: nat)
      modifies this`process
      ensures View() == old(View()).(process := Some(spawned))
    {
      process := Some(spawned);
    }

    method ApplyApproval(a: ApprovalState)
      modifies this
      ensures View() == WithApproval(old(View()), a)
    {
      CopyTrace(a);
      if a.pending && !cancelRequested {
        status := Suspended;
        SetApproval(true, a.summary, a.details);
      } else {
        ClearApproval();
      }
    }

    /** The fields that a trace overwrites only where it has something to say. */
    method CopyTrace(a: ApprovalState)
      modifies this`threadId, this`checkpointId, this`approvalHistory
      ensures threadId == (if a.threadId != "" then a.threadId else old(threadId))
      ensures checkpointId == (if a.checkpointId != "" then a.checkpointId else old(checkpointId))
      ensures approvalHistory == (if a.history != [] then a.history else old(approvalHistory))
    {
      if a.threadId != "" { threadId := a.threadId; }
      if a.checkpointId != "" { checkpointId := a.checkpointId; }
      if a.history != [] { approvalHistory := a.history; }
    }

    method SetApproval(pending: bool, summary: string, details: Details)
      modifies this`pendingApproval, this`pendingSummary, this`pendingDetails
      ensures pendingApproval == pending && pendingSummary == summary && pendingDetails == details
    {
      pendingApproval := pending;
      pendingSummary := summary;
      pendingDetails := details;
    }

    method End(code: int, now: int)
      modifies this
      ensures View() == Ended(old(View()), code, now)
    {
      exitCode := Some(code);
      finishedAt := Some(now);
      if cancelRequested {
        status := Cancelled;
      } else {
        status := if code == 0 then Succeeded else Failed;
      }
    }

    method Refresh(poll: Option<int>, a: ApprovalState, now: int)
      modifies this
      ensures View() == Refreshed(old(View()), poll, a, now)
    {
      if finishedAt.Some? { return; }
      if process.None? { return; }
      match poll {
        case None =>
        case Some(code) =>
          End(code, now);
          ApplyApproval(a);
      }
    }

    method Cancel(poll: Option<int>, a: ApprovalState, now: int)
      modifies this
      ensures View() == CancelledBy(Refreshed(old(View()), poll, a, now))
    {
      Refresh(poll, a, now);
      if finishedAt.Some? { return; }
      if !cancelRequested {
        cancelRequested := true;
        status := Cancelling;
      }
    }

    /** approve_run. The answer is built before the lock is released, which refreshes the resumed record
        once more: `pollAfter`, `traceAfter` and `later` are what that refresh sees. */
    method Approve(poll: Option<int>, a: ApprovalState, now: int, actor: string, rationale: string,
                   provided: Option<string>, spawned: nat,
                   pollAfter: Option<int>, traceAfter: ApprovalState, later: int) returns (r: Result<(), ApiError>)
      modifies this
      ensures var s := Refreshed(old(View()), poll, a, now);
              match ApprovalProblem(s, provided)
              case Some(e) => r == Failure(e) && View() == s
              case None =>
                && r == Success(())
                && View() == Refreshed(ResumedBy(s, actor, rationale, now, spawned), pollAfter, traceAfter, later)
    {
      Refresh(poll, a, now);
      if !pendingApproval { return Failure(ApprovalNotPending); }
      if pendingDetails.challengeId.None? { return Failure(ApprovalChallengeMissing); }
      if provided.Some? && provided.value != pendingDetails.challengeId.value { return Failure(ChallengeIdMismatch); }
      if threadId == "" || checkpointId == "" { return Failure(ResumeCheckpointMissing); }
      Resume(actor, rationale, now, spawned);
      Refresh(pollAfter, traceAfter, later);
      return Success(());
    }

    /** The record after the resumed process has been spawned. */
    method Resume(actor: string, rationale: string, now: int, spawned: nat)
      requires pendingDetails.challengeId.Some?
      modifies this
      ensures View() == ResumedBy(old(View()), actor, rationale, now, spawned)
    {
      var entry := ApprovalEntry(Approved, actor, rationale, pendingDetails.challengeId.value, now);
      argv := BuildResumeArgv(argv, threadId, checkpointId);
      process := Some(spawned);
      startedAt := now;
      finishedAt := None;
      exitCode := None;
      status := Running;
      ClearApproval();
      Decide(entry, "[approval] approved by " + actor);
    }

    method ClearApproval()
      modifies this`pendingApproval, this`pendingSummary, this`pendingDetails
      ensures View() == Cleared(old(View()))
    {
      SetApproval(false, "", NO_DETAILS);
    }

    method AppendLog(line: string)
      modifies this`logs
      ensures logs == old(logs) + [line]
    {
      logs := logs + [line];
    }

    method Reject(poll: Option<int>, a: ApprovalState, now: int, actor: string, rationale: string)
      returns (r: Result<(), ApiError>)
      modifies this
      ensures var s := Refreshed(old(View()), poll, a, now);
              if s.pendingApproval then r == Success(()) && View() == RejectedBy(s, actor, rationale, now)
              else r == Failure(ApprovalNotPending) && View() == s
    {
      Refresh(poll, a, now);
      if !pendingApproval { return Failure(ApprovalNotPending); }
      Refuse(actor, rationale, now);
      return Success(());
    }

    method Refuse(actor: string, rationale: string, now: int)
      modifies this
      ensures View() == RejectedBy(old(View()), actor, rationale, now)
    {
      var challengeId := if pendingDetails.challengeId.Some? then pendingDetails.challengeId.value else "";
      ClearApproval();
      Decide(ApprovalEntry(Refused, actor, rationale, challengeId, now), "[approval] rejected by " + actor);
      finishedAt := Some(now);
      exitCode := Some(1);
      status := Rejected;
    }

    method Decide(entry: ApprovalEntry, line: string)
      modifies this`approvalHistory, this`logs
      ensures approvalHistory == old(approvalHistory) + [entry] && logs == old(logs) + [line]
    {
      approvalHistory := approvalHistory + [entry];
      AppendLog(line);
    }

    /** The first locked section of _mark_finished; `went` tells whether the second one follows. */
    method MarkFinishedFirst(code: int, now: int) returns (went: bool)
      modifies this
      ensures went <==> old(finishedAt).None?
      ensures View() == if went then Ended(old(View()), code, now) else old(View())
    {
      if finishedAt.Some? { return false; }
      End(code, now);
      return true;
    }

    /** The second locked section of _mark_finished, with the trace read in between. */
    method MarkFinishedSecond(a: ApprovalState)
      modifies this
      ensures View() == WithApproval(old(View()), a)
    {
      ApplyApproval(a);
    }
  }

  function NewRecord(argv: seq<string>, now: int, threadId: string, checkpointId: string): (r: Record) {
    Record(argv, None, now, Running, None, None, [], false, threadId, checkpointId, false, "", NO_DETAILS, [])
  }

  /** _resume_argv */
  method BuildResumeArgv(argv: seq<string>, threadId: string, checkpointId: string) returns (r: seq<string>)
    ensures r == ResumeArgv(argv, threadId, checkpointId)
  {
    var kept := StripResume(argv);
    var flags := ["--resume"];
    if threadId != "" { flags := flags + ["--thread-id", threadId]; }
    if checkpointId != "" { flags := flags + ["--checkpoint-id", checkpointId]; }
    assert flags == ResumeFlags(threadId, checkpointId);
    r := kept + flags;
  }

  method StripResume(argv: seq<string>) returns (r: seq<string>)
    ensures r == Stripped(argv)
  {
    r := [];
    var idx: nat := 0;
    while idx < |argv|
      invariant Stripped(argv) == r + StrippedFrom(argv, idx)
      decreases |argv| - idx
    {
      r, idx := StripToken(argv, r, idx);
    }
  }

  /** One round of the loop of _resume_argv. */
  method StripToken(argv: seq<string>, kept: seq<string>, at: nat) returns (r: seq<string>, idx: nat)
    requires at < |argv|
    ensures at < idx
    ensures r + StrippedFrom(argv, idx) == kept + StrippedFrom(argv, at)
  {
    r, idx := kept, at;
    var token := argv[idx];
    StrippedStep(argv, idx);
    if token == "--resume" {
      idx := idx + 1;
    } else if token == "--thread-id" || token == "--checkpoint-id" {
      idx := idx + 2;
    } else {
      r := r + [token];
      idx := idx + 1;
    }
  }

  function StrippedFrom(argv: seq<string>, idx: nat): (r: seq<string>) {
    if idx <= |argv| then Stripped(argv[idx..]) else []
  }

  lemma StrippedStep(argv: seq<string>, idx: nat)
    requires idx < |argv|
    ensures StrippedFrom(argv, idx) ==
              if argv[idx] == "--resume" then StrippedFrom(argv, idx + 1)
              else if argv[idx] == "--thread-id" || argv[idx] == "--checkpoint-id" then StrippedFrom(argv, idx + 2)
              else [argv[idx]] + StrippedFrom(argv, idx + 1)
  {
    var rest := argv[idx..];
    assert rest[1..] == argv[idx + 1..];
    if idx + 2 <= |argv| { assert rest[2..] == argv[idx + 2..]; }
  }
}
