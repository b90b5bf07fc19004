/** What a polling caller is told: the mappers of provider/backupjob.go and
    provider/servicejob.go over the job runner's snapshots. */
module Polling {
  import opened Common
  import opened JobStatuses
  import opened Clusters
  import opened JobProtocol
  import opened Aging
  import opened ConcurrentCalls

  /** The reported times, field by field. The start time is the Job's if it is set. The
      finish time is the Job's completion time if that is set; else, for a failed Job, the
      transition time of the first Failed condition that has one; else there is none. */
  lemma ReportedTimes(c: Cluster, k: Key, status: JobStatus, logs: string, state: JobState)
    requires k in c.jobs && status == c.jobs[k].status && Polled(c, k, logs, state)
    ensures status.startTime in {None, Some(0)} ==> state.startedAt == None
    ensures status.startTime !in {None, Some(0)} ==> state.startedAt == status.startTime
    ensures status.completionTime !in {None, Some(0)} ==> state.finishedAt == status.completionTime
    ensures status.completionTime in {None, Some(0)} && state.phase != PhaseFailed ==> state.finishedAt == None
    ensures status.completionTime in {None, Some(0)} && state.phase == PhaseFailed ==>
              var cs := status.conditions;
              && (forall i | 0 <= i < |cs| && cs[i].kind == FailedCondition && cs[i].lastTransition != 0 &&
                             forall j | 0 <= j < i :: cs[j].kind == FailedCondition ==> cs[j].lastTransition == 0 ::
                    state.finishedAt == Some(cs[i].lastTransition))
              && ((forall i | 0 <= i < |cs| :: cs[i].kind == FailedCondition ==> cs[i].lastTransition == 0) ==>
                    state.finishedAt == None)
  {
    var cs := status.conditions;
    forall i | 0 <= i < |cs| && cs[i].kind == FailedCondition && cs[i].lastTransition != 0 &&
               forall j | 0 <= j < i :: cs[j].kind == FailedCondition ==> cs[j].lastTransition == 0
      ensures ConditionTime(cs, FailedCondition) == Some(cs[i].lastTransition)
    {
      TimeReadsTheFirst(cs, FailedCondition, i);
    }
    if forall i | 0 <= i < |cs| :: cs[i].kind == FailedCondition ==> cs[i].lastTransition == 0 {
      TimeReadsTheFirst(cs, FailedCondition, |cs|);
    }
  }

  /** The reason of a failure: the message, or else the reason, of the first Failed condition
      that has either, or "unknown reason"; then, if there are logs, a colon and the logs. */
  lemma ReportedReason(c: Cluster, k: Key, status: JobStatus, logs: string, state: JobState)
    requires k in c.jobs && status == c.jobs[k].status && Polled(c, k, logs, state)
    ensures state.phase != PhaseFailed ==> state.reason == ""
    ensures state.phase == PhaseFailed ==>
              var cs, rest := status.conditions, if logs == "" then "" else ": " + logs;
              && (forall i | 0 <= i < |cs| && cs[i].kind == FailedCondition && (cs[i].message != "" || cs[i].reason != "") &&
                             forall j | 0 <= j < i :: cs[j].kind == FailedCondition ==> cs[j].message == "" && cs[j].reason == "" ::
                    state.reason == (if cs[i].message != "" then cs[i].message else cs[i].reason) + rest)
              && ((forall i | 0 <= i < |cs| :: cs[i].kind == FailedCondition ==> cs[i].message == "" && cs[i].reason == "") ==>
                    state.reason == "unknown reason" + rest)
  {
    var cs := status.conditions;
    MessageIsNeverEmpty(cs, FailedCondition);
    forall i | 0 <= i < |cs| && cs[i].kind == FailedCondition && (cs[i].message != "" || cs[i].reason != "") &&
               forall j | 0 <= j < i :: cs[j].kind == FailedCondition ==> cs[j].message == "" && cs[j].reason == ""
      ensures ConditionMessage(cs, FailedCondition) == if cs[i].message != "" then cs[i].message else cs[i].reason
    {
      MessageReadsTheFirst(cs, FailedCondition, i);
    }
    if forall i | 0 <= i < |cs| :: cs[i].kind == FailedCondition ==> cs[i].message == "" && cs[i].reason == "" {
      MessageReadsTheFirst(cs, FailedCondition, |cs|);
    }
  }

  datatype BackupStatus = BackupStatus(exists_: bool, error: string)

  datatype OperationPhase = OperationPending | OperationRunning | OperationCompleted | OperationFailed

  datatype OperationStatus = OperationStatus(
    phase: OperationPhase,
    startedAt: Option<Time>,
    completedAt: Option<Time>,
    error: string)

  function BackupStatusFromJob(s: JobState): BackupStatus {
    BackupStatus(s.phase == PhaseSucceeded, if s.phase == PhaseFailed then s.reason else "")
  }

  /** A Job that no longer exists counts as pending. */
  function OperationStatusFromJob(s: JobState): OperationStatus {
    var pending := OperationStatus(OperationPending, s.startedAt, s.finishedAt, "");
    match s.phase
    case PhaseRunning => pending.(phase := OperationRunning)
    case PhaseSucceeded => pending.(phase := OperationCompleted)
    case PhaseFailed => pending.(phase := OperationFailed, error := s.reason)
    case _ => pending
  }

  /** Coherent polls: whatever State reports, a reason is given exactly for a failure, the
      backup exists exactly when the operation is completed, both mappers carry the same
      error, exactly the failed ones carry one, and never one beside a backup. */
  lemma PollsAreCoherent(c: Cluster, k: Key, logs: string, s: JobState)
    requires Polled(c, k, logs, s)
    ensures var b, o := BackupStatusFromJob(s), OperationStatusFromJob(s);
            && (s.reason != "" <==> s.phase == PhaseFailed)
            && (b.exists_ <==> o.phase == OperationCompleted)
            && b.error == o.error == s.reason
            && (o.error != "" <==> o.phase == OperationFailed)
            && !(b.exists_ && b.error != "")
            && (k !in c.jobs ==> o == OperationStatus(OperationPending, None, None, "") && b == BackupStatus(false, ""))
  {
    if k in c.jobs {
      MessageIsNeverEmpty(c.jobs[k].status.conditions, FailedCondition);
    }
  }

  /** What an operation is reported as, in terms of the Job itself, in every cluster: finished
      as the terminal conditions say, and else running exactly while pods are active. An
      absent Job is reported as pending, without times. */
  lemma OperationTellsThePhase(c: Cluster, k: Key, logs: string, s: JobState)
    requires Polled(c, k, logs, s)
    ensures k !in c.jobs ==>
              s == JobState(PhaseNotFound, None, None, "") &&
              OperationStatusFromJob(s) == OperationStatus(OperationPending, None, None, "")
    ensures k in c.jobs ==>
              var status, o := c.jobs[k].status, OperationStatusFromJob(s);
              var complete := VerdictOn(Verdicts(status.conditions), Complete) == Some(True);
              var failed := VerdictOn(Verdicts(status.conditions), FailedCondition) == Some(True);
              && (o.phase == OperationCompleted <==> complete)
              && (o.phase == OperationFailed <==> !complete && failed)
              && (o.phase == OperationRunning <==> !complete && !failed && status.active > 0)
              && (o.phase == OperationPending <==> !complete && !failed && status.active <= 0)
  {
    if k in c.jobs {
      PhaseReadsTheVerdict(c.jobs[k].status);
    }
  }

  /** And when: it started when the Job did; it completed when the Job did, or, failed without
      a completion time, at the transition of the first Failed condition that has a time. */
  lemma OperationTellsTheTimes(c: Cluster, k: Key, logs: string, s: JobState)
    requires Polled(c, k, logs, s) && k in c.jobs
    ensures var status, o := c.jobs[k].status, OperationStatusFromJob(s);
            var cs := status.conditions;
            && (status.startTime in {None, Some(0)} ==> o.startedAt == None)
            && (status.startTime !in {None, Some(0)} ==> o.startedAt == status.startTime)
            && (status.completionTime !in {None, Some(0)} ==> o.completedAt == status.completionTime)
            && (status.completionTime in {None, Some(0)} && o.phase != OperationFailed ==> o.completedAt == None)
            && (status.completionTime in {None, Some(0)} && o.phase == OperationFailed ==>
                  && (forall i | 0 <= i < |cs| && cs[i].kind == FailedCondition && cs[i].lastTransition != 0 &&
                                 forall j | 0 <= j < i :: cs[j].kind == FailedCondition ==> cs[j].lastTransition == 0 ::
                        o.completedAt == Some(cs[i].lastTransition))
                  && ((forall i | 0 <= i < |cs| :: cs[i].kind == FailedCondition ==> cs[i].lastTransition == 0) ==>
                        o.completedAt == None))
  {
    ReportedTimes(c, k, c.jobs[k].status, logs, s);
  }

  // ---------------------------------------------------------------- One verdict

  /** No Job is both complete and failed. */
  ghost predicate OneVerdictEach(c: Cluster) {
    forall k | k in c.jobs :: OneVerdict(c.jobs[k].status)
  }

  lemma StepKeepsOneVerdict(s: System, step: Step)
    requires OneVerdictEach(s.cluster)
    ensures OneVerdictEach(Next(s, step).cluster)
  {
    if step.Advance? && InFlight(s, step.pid) {
      forall k | k in Next(s, step).cluster.jobs ensures OneVerdict(Next(s, step).cluster.jobs[k].status) {
        RequestsChangeOneName(s.cluster, Request(s.calls[step.pid]), step.outcome, k);
      }
    } else if step.Environment? && step.move.Progress? && Enabled(s.cluster, step.move) {
      OneVerdictLasts(s.cluster.jobs[step.move.key].status, step.move.status);
    }
  }

  lemma {:induction false} ExecutionKeepsOneVerdict(s: System, steps: seq<Step>)
    requires OneVerdictEach(s.cluster)
    ensures OneVerdictEach(Execute(s, steps).cluster)
    decreases |steps|
  {
    if steps == [] {
    } else {
      StepKeepsOneVerdict(s, steps[0]);
      ExecutionKeepsOneVerdict(Next(s, steps[0]), steps[1..]);
    }
  }

  /** Faithful polls: along any execution, with any calls in flight, a backup is reported to
      exist exactly if the Job controller has decided Complete, and an error exactly if it
      has decided Failed; the order in which State looks at the two is of no consequence. */
  lemma PollsTellTheVerdict(s: System, steps: seq<Step>, k: Key, logs: string, polled: JobState)
    requires OneVerdictEach(s.cluster)
    requires k in Execute(s, steps).cluster.jobs && Polled(Execute(s, steps).cluster, k, logs, polled)
    ensures var verdicts := Verdicts(Execute(s, steps).cluster.jobs[k].status.conditions);
            && (BackupStatusFromJob(polled).exists_ <==> VerdictOn(verdicts, Complete) == Some(True))
            && (BackupStatusFromJob(polled).error != "" <==> VerdictOn(verdicts, FailedCondition) == Some(True))
  {
    ExecutionKeepsOneVerdict(s, steps);
    PhaseReadsTheVerdict(Execute(s, steps).cluster.jobs[k].status);
    PollsAreCoherent(Execute(s, steps).cluster, k, logs, polled);
  }

  // ---------------------------------------------------------------- A lasting verdict

  /** The verdict of the Job uid, wherever it still is. */
  ghost predicate VerdictStands(c: Cluster, k: Key, uid: Uid, phase: JobPhase) {
    && c.UidsIssued() && uid < c.nextUid
    && (k in c.jobs && c.jobs[k].uid == uid ==> PhaseOf(c.jobs[k].status) == phase)
  }

  lemma StepKeepsVerdict(s: System, step: Step, k: Key, uid: Uid, phase: JobPhase)
    requires VerdictStands(s.cluster, k, uid, phase) && phase in {PhaseSucceeded, PhaseFailed}
    ensures VerdictStands(Next(s, step).cluster, k, uid, phase)
  {
    match step
    case Begin(_, _) =>
    case Crash(_) =>
    case Advance(pid, outcome) =>
      if InFlight(s, pid) {
        forall k' ensures k' in Next(s, step).cluster.jobs ==> Next(s, step).cluster.jobs[k'].uid < Next(s, step).cluster.nextUid {
          RequestsChangeOneName(s.cluster, Request(s.calls[pid]), outcome, k');
        }
        RequestsChangeOneName(s.cluster, Request(s.calls[pid]), outcome, k);
      }
    case Environment(move) =>
      MoveAges(s.cluster, move, k);
      forall k' ensures Aged(s.cluster, Apply(s.cluster, move), k') {
        MoveAges(s.cluster, move, k');
      }
  }

  lemma {:induction false} ExecutionKeepsVerdict(s: System, steps: seq<Step>, k: Key, uid: Uid, phase: JobPhase)
    requires VerdictStands(s.cluster, k, uid, phase) && phase in {PhaseSucceeded, PhaseFailed}
    ensures VerdictStands(Execute(s, steps).cluster, k, uid, phase)
    decreases |steps|
  {
    if steps == [] {
    } else {
      StepKeepsVerdict(s, steps[0], k, uid, phase);
      ExecutionKeepsVerdict(Next(s, steps[0]), steps[1..], k, uid, phase);
    }
  }

  /** Stable polls: along any execution, with any calls in flight, a poll that finds the
      Job a previous poll found finished reports the same phase, the same existence and a
      failure again if it was one. */
  lemma VerdictsAreStable(s: System, steps: seq<Step>, k: Key, before: JobState, logs: string, after: JobState, logs': string)
    requires s.cluster.UidsIssued()
    requires Polled(s.cluster, k, logs, before) && before.phase in {PhaseSucceeded, PhaseFailed}
    requires var t := Execute(s, steps);
             k in t.cluster.jobs && t.cluster.jobs[k].uid == s.cluster.jobs[k].uid && Polled(t.cluster, k, logs', after)
    ensures after.phase == before.phase
    ensures BackupStatusFromJob(after).exists_ == BackupStatusFromJob(before).exists_
    ensures (BackupStatusFromJob(after).error != "") == (BackupStatusFromJob(before).error != "")
    ensures OperationStatusFromJob(after).phase == OperationStatusFromJob(before).phase
  {
    ExecutionKeepsVerdict(s, steps, k, s.cluster.jobs[k].uid, before.phase);
    PollsAreCoherent(s.cluster, k, logs, before);
    PollsAreCoherent(Execute(s, steps).cluster, k, logs', after);
  }
}
