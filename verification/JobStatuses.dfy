/** Reading a Job's status: the condition lookups and phases of client/jobrunner.go. */
module JobStatuses {
  import opened Common

  /** Points in time are opaque and ordered; 0 is Go's zero time. */
  type Time = nat

  datatype ConditionType = Complete | FailedCondition | OtherCondition(name: string)

  datatype ConditionStatus = True | False | Unknown

  datatype Condition = Condition(
    kind: ConditionType,
    status: ConditionStatus,
    reason: string,
    message: string,
    lastTransition: Time)

  datatype JobStatus = JobStatus(
    active: int,
    startTime: Option<Time>,
    completionTime: Option<Time>,
    conditions: seq<Condition>)

  const NEW_JOB := JobStatus(0, None, None, [])

  datatype JobPhase = PhaseNotFound | PhasePending | PhaseRunning | PhaseSucceeded | PhaseFailed

  /** jobConditionTrue: the first condition of the type decides. */
  predicate ConditionTrue(conditions: seq<Condition>, t: ConditionType) {
    conditions != [] &&
    if conditions[0].kind == t then conditions[0].status == True else ConditionTrue(conditions[1..], t)
  }

  lemma {:induction false} ConditionTrueReadsTheFirst(conditions: seq<Condition>, t: ConditionType)
    ensures ConditionTrue(conditions, t) <==>
            exists i | 0 <= i < |conditions| ::
              conditions[i].kind == t && conditions[i].status == True && forall j | 0 <= j < i :: conditions[j].kind != t
  {
    if conditions == [] {
    } else {
      ConditionTrueReadsTheFirst(conditions[1..], t);
      if conditions[0].kind != t && ConditionTrue(conditions, t) {
        var i :| 0 <= i < |conditions[1..]| && conditions[1..][i].kind == t && conditions[1..][i].status == True &&
                 forall j | 0 <= j < i :: conditions[1..][j].kind != t;
        assert conditions[i + 1] == conditions[1..][i];
        forall j | 0 <= j < i + 1 ensures conditions[j].kind != t {
          assert j > 0 ==> conditions[j] == conditions[1..][j - 1];
        }
      }
      if i :| 0 < i < |conditions| && conditions[i].kind == t && conditions[i].status == True &&
              forall j | 0 <= j < i :: conditions[j].kind != t {
        assert conditions[1..][i - 1] == conditions[i];
        assert forall j | 0 <= j < i - 1 :: conditions[1..][j] == conditions[j + 1];
      }
    }
  }

  /** conditionMessage: the first message or reason of a condition of the type. */
  function ConditionMessage(conditions: seq<Condition>, t: ConditionType): string {
    if conditions == [] then "unknown reason"
    else if conditions[0].kind == t && conditions[0].message != "" then conditions[0].message
    else if conditions[0].kind == t && conditions[0].reason != "" then conditions[0].reason
    else ConditionMessage(conditions[1..], t)
  }

  /** The first condition of the type with a message or a reason decides, the message first. */
  lemma {:induction false} MessageReadsTheFirst(conditions: seq<Condition>, t: ConditionType, i: nat)
    requires i <= |conditions|
    requires forall j | 0 <= j < i :: conditions[j].kind == t ==> conditions[j].message == "" && conditions[j].reason == ""
    requires i < |conditions| ==> conditions[i].kind == t && (conditions[i].message != "" || conditions[i].reason != "")
    ensures ConditionMessage(conditions, t) ==
            if i == |conditions| then "unknown reason"
            else if conditions[i].message != "" then conditions[i].message
            else conditions[i].reason
  {
    if i == 0 {
    } else {
      assert forall j | 0 <= j < |conditions[1..]| :: conditions[1..][j] == conditions[j + 1];
      MessageReadsTheFirst(conditions[1..], t, i - 1);
    }
  }

  /** conditionTime: the first transition time set on a condition of the type. */
  function ConditionTime(conditions: seq<Condition>, t: ConditionType): Option<Time> {
    if conditions == [] then None
    else if conditions[0].kind == t && conditions[0].lastTransition != 0 then Some(conditions[0].lastTransition)
    else ConditionTime(conditions[1..], t)
  }

  /** The first condition of the type with a transition time decides. */
  lemma {:induction false} TimeReadsTheFirst(conditions: seq<Condition>, t: ConditionType, i: nat)
    requires i <= |conditions|
    requires forall j | 0 <= j < i :: conditions[j].kind == t ==> conditions[j].lastTransition == 0
    requires i < |conditions| ==> conditions[i].kind == t && conditions[i].lastTransition != 0
    ensures ConditionTime(conditions, t) == if i < |conditions| then Some(conditions[i].lastTransition) else None
  {
    if i == 0 {
    } else {
      assert forall j | 0 <= j < |conditions[1..]| :: conditions[1..][j] == conditions[j + 1];
      TimeReadsTheFirst(conditions[1..], t, i - 1);
    }
  }

  /** timePtr: a zero time is no time. */
  function TimePtr(t: Option<Time>): Option<Time> {
    if t == Some(0) then None else t
  }

  /** The coarse phase of an existing Job. */
  function PhaseOf(status: JobStatus): JobPhase {
    if ConditionTrue(status.conditions, Complete) then PhaseSucceeded
    else if ConditionTrue(status.conditions, FailedCondition) then PhaseFailed
    else if status.active > 0 then PhaseRunning
    else PhasePending
  }

  predicate Finished(status: JobStatus) {
    PhaseOf(status) in {PhaseSucceeded, PhaseFailed}
  }

  // ---------------------------------------------------------------- How a status changes

  /** A terminal condition's type and status. */
  datatype Verdict = Verdict(kind: ConditionType, status: ConditionStatus)

  /** The Complete and Failed conditions, in their order. */
  function Verdicts(conditions: seq<Condition>): seq<Verdict> {
    if conditions == [] then []
    else if conditions[0].kind.OtherCondition? then Verdicts(conditions[1..])
    else [Verdict(conditions[0].kind, conditions[0].status)] + Verdicts(conditions[1..])
  }

  /** The status of the condition of a type, if there is one. */
  function VerdictOn(verdicts: seq<Verdict>, t: ConditionType): Option<ConditionStatus> {
    if verdicts == [] then None
    else if verdicts[0].kind == t then Some(verdicts[0].status)
    else VerdictOn(verdicts[1..], t)
  }

  predicate Decided(verdicts: seq<Verdict>) {
    VerdictOn(verdicts, Complete) == Some(True) || VerdictOn(verdicts, FailedCondition) == Some(True)
  }

  /** The condition of a type is set to True, or added. */
  function Decide(verdicts: seq<Verdict>, t: ConditionType): seq<Verdict> {
    if verdicts == [] then [Verdict(t, True)]
    else if verdicts[0].kind == t then [Verdict(t, True)] + verdicts[1..]
    else [verdicts[0]] + Decide(verdicts[1..], t)
  }

  /** What the Job controller may make of a status. Times, active pods, texts and other
      conditions change freely; terminal conditions keep their type and status, but as long
      as none is True one of them may become so. */
  predicate Progresses(a: JobStatus, b: JobStatus) {
    var old_, new_ := Verdicts(a.conditions), Verdicts(b.conditions);
    new_ == old_ || (!Decided(old_) && (new_ == Decide(old_, Complete) || new_ == Decide(old_, FailedCondition)))
  }

  lemma {:induction false} ConditionTrueReadsTheVerdict(conditions: seq<Condition>, t: ConditionType)
    requires !t.OtherCondition?
    ensures ConditionTrue(conditions, t) <==> VerdictOn(Verdicts(conditions), t) == Some(True)
  {
    if conditions == [] {
    } else {
      ConditionTrueReadsTheVerdict(conditions[1..], t);
      assert !conditions[0].kind.OtherCondition? ==> Verdicts(conditions)[1..] == Verdicts(conditions[1..]);
    }
  }

  /** The code's phases read the verdict: a Job is finished exactly if one is True, and
      Complete has precedence over Failed. */
  lemma PhaseReadsTheVerdict(status: JobStatus)
    ensures var verdicts := Verdicts(status.conditions);
            && (Finished(status) <==> Decided(verdicts))
            && (PhaseOf(status) == PhaseSucceeded <==> VerdictOn(verdicts, Complete) == Some(True))
            && (PhaseOf(status) == PhaseFailed <==>
                  VerdictOn(verdicts, Complete) != Some(True) && VerdictOn(verdicts, FailedCondition) == Some(True))
            && (PhaseOf(status) == PhaseRunning <==> !Decided(verdicts) && status.active > 0)
  {
    ConditionTrueReadsTheVerdict(status.conditions, Complete);
    ConditionTrueReadsTheVerdict(status.conditions, FailedCondition);
  }

  /** Once finished, the phase lasts, whatever else the Job controller reports. */
  lemma PhaseLasts(a: JobStatus, b: JobStatus)
    requires Progresses(a, b) && Finished(a)
    ensures PhaseOf(b) == PhaseOf(a)
  {
    PhaseReadsTheVerdict(a);
    PhaseReadsTheVerdict(b);
  }

  lemma {:induction false} DecideSetsOne(verdicts: seq<Verdict>, t: ConditionType, u: ConditionType)
    ensures VerdictOn(Decide(verdicts, t), u) == if t == u then Some(True) else VerdictOn(verdicts, u)
  {
    if verdicts == [] {
    } else {
      DecideSetsOne(verdicts[1..], t, u);
      assert verdicts[0].kind != t ==> Decide(verdicts, t)[1..] == Decide(verdicts[1..], t);
      assert ([Verdict(t, True)] + verdicts[1..])[1..] == verdicts[1..];
    }
  }

  /** No Job is both complete and failed. */
  predicate OneVerdict(status: JobStatus) {
    var verdicts := Verdicts(status.conditions);
    !(VerdictOn(verdicts, Complete) == Some(True) && VerdictOn(verdicts, FailedCondition) == Some(True))
  }

  lemma OneVerdictLasts(a: JobStatus, b: JobStatus)
    requires Progresses(a, b) && OneVerdict(a)
    ensures OneVerdict(b)
  {
    var verdicts := Verdicts(a.conditions);
    DecideSetsOne(verdicts, Complete, FailedCondition);
    DecideSetsOne(verdicts, FailedCondition, Complete);
  }

  /** Bare conditions with the given verdicts. */
  function Conditions(verdicts: seq<Verdict>): seq<Condition> {
    seq(|verdicts|, i requires 0 <= i < |verdicts| => Condition(verdicts[i].kind, verdicts[i].status, "", "", 0))
  }

  lemma {:induction false} ConditionsCarryVerdicts(verdicts: seq<Verdict>)
    requires forall v | v in verdicts :: !v.kind.OtherCondition?
    ensures Verdicts(Conditions(verdicts)) == verdicts
  {
    if verdicts == [] {
    } else {
      ConditionsCarryVerdicts(verdicts[1..]);
      assert Conditions(verdicts)[1..] == Conditions(verdicts[1..]);
      assert verdicts == [verdicts[0]] + verdicts[1..];
    }
  }

  /** An unfinished status, completed. */
  function Completed(status: JobStatus): JobStatus {
    JobStatus(0, None, None, Conditions(Decide(Verdicts(status.conditions), Complete)))
  }

  lemma {:induction false} VerdictsAreTerminal(conditions: seq<Condition>)
    ensures forall v | v in Verdicts(conditions) :: !v.kind.OtherCondition?
  {
    if conditions == [] {
    } else {
      VerdictsAreTerminal(conditions[1..]);
    }
  }

  lemma {:induction false} DecideKeepsTerminal(verdicts: seq<Verdict>)
    requires forall v | v in verdicts :: !v.kind.OtherCondition?
    ensures forall v | v in Decide(verdicts, Complete) :: !v.kind.OtherCondition?
  {
    if verdicts == [] {
    } else {
      DecideKeepsTerminal(verdicts[1..]);
    }
  }

  lemma CompletedIsFinished(status: JobStatus)
    requires !Finished(status)
    ensures Progresses(status, Completed(status)) && Finished(Completed(status))
  {
    var verdicts := Verdicts(status.conditions);
    VerdictsAreTerminal(status.conditions);
    DecideKeepsTerminal(verdicts);
    ConditionsCarryVerdicts(Decide(verdicts, Complete));
    DecideSetsOne(verdicts, Complete, Complete);
    PhaseReadsTheVerdict(status);
    PhaseReadsTheVerdict(Completed(status));
  }

  // ---------------------------------------------------------------- Reporting it

  /** What a poll reports of a Job. */
  datatype JobState = JobState(
    phase: JobPhase,
    startedAt: Option<Time>,
    finishedAt: Option<Time>,
    reason: string)

  const NO_JOB := JobState(PhaseNotFound, None, None, "")

  /** failureReason: the condition's message, followed by the pod logs if there are any. */
  function FailureReason(conditions: seq<Condition>, logs: string): string {
    var reason := ConditionMessage(conditions, FailedCondition);
    if logs == "" then reason
    else if reason == "" then logs
    else reason + ": " + logs
  }

  lemma {:induction false} MessageIsNeverEmpty(conditions: seq<Condition>, t: ConditionType)
    ensures ConditionMessage(conditions, t) != ""
  {
    if conditions == [] {
    } else {
      MessageIsNeverEmpty(conditions[1..], t);
    }
  }

  /** The snapshot of an existing Job whose failed pods left the given logs. */
  ghost predicate Reports(status: JobStatus, logs: string, state: JobState) {
    && state.phase == PhaseOf(status)
    && state.startedAt == TimePtr(status.startTime)
    && state.finishedAt == (if TimePtr(status.completionTime).None? && state.phase.PhaseFailed?
                            then ConditionTime(status.conditions, FailedCondition)
                            else TimePtr(status.completionTime))
    && state.reason == (if state.phase.PhaseFailed? then FailureReason(status.conditions, logs) else "")
  }
}
