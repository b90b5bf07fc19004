/** Concurrent Runs of one name: the Secret comes before the Job, and the Job comes once. */
module ConcurrentRuns {
  import opened Common
  import opened Errors
  import opened Clusters
  import opened JobProtocol
  import opened Aging
  import opened SecretBeforeJob
  import opened ConcurrentCalls

  // ---------------------------------------------------------------- Secret before Job

  /** All calls in flight on k are Runs whose specs have the secret keys `keys`. */
  ghost predicate OnlyRuns(s: System, k: Key, keys: set<string>) {
    forall pid | At(s, pid, k) ::
      (s.calls[pid].CreatingSecret? || s.calls[pid].CreatingJob? || s.calls[pid].Adopting?) &&
      s.calls[pid].spec.secrets.Keys == keys
  }

  /** No Run is in flight while the Secret's owner is gone, and none outlives the Job it created. */
  ghost predicate Calm(s: System, k: Key) {
    && (forall pid | At(s, pid, k) :: !s.cluster.Doomed(k))
    && (forall pid | At(s, pid, k) && s.calls[pid].Adopting? :: s.cluster.LiveAs(k, s.calls[pid].uid))
  }

  ghost predicate CalmThroughout(s: System, steps: seq<Step>, k: Key, keys: set<string>)
    decreases |steps|
  {
    OnlyRuns(s, k, keys) && Calm(s, k) && (steps != [] ==> CalmThroughout(Next(s, steps[0]), steps[1..], k, keys))
  }

  /** The call's own create of the Secret was refused with a conflict while the name was free. */
  ghost predicate MisreadBy(log: seq<Event>, pid: Pid, k: Key) {
    exists i | 0 <= i < |log| :: log[i].pid == pid && log[i].misread && log[i].call.CreateSecret? && log[i].call.key == k
  }

  /** The step creates the Job while its Secret is missing, for a call that has misread the
      refusal of its own create. */
  ghost predicate BareLanding(s: System, step: Step, k: Key) {
    && step.Advance? && At(s, step.pid, k) && s.calls[step.pid].CreatingJob? && MisreadBy(s.log, step.pid, k)
    && k !in s.cluster.secrets && k !in s.cluster.jobs && k in Next(s, step).cluster.jobs
  }

  ghost predicate NoBareLanding(s: System, steps: seq<Step>, k: Key)
    decreases |steps|
  {
    steps == [] || (!BareLanding(s, steps[0], k) && NoBareLanding(Next(s, steps[0]), steps[1..], k))
  }

  ghost predicate SecuredThroughout(s: System, steps: seq<Step>, k: Key)
    decreases |steps|
  {
    Secured(s.cluster, k) && (steps == [] || SecuredThroughout(Next(s, steps[0]), steps[1..], k))
  }

  /** The inductive invariant over all call states. */
  ghost predicate SecretFirst(s: System, k: Key, keys: set<string>) {
    && (s.cluster.Live(k) ==> Needs(s.cluster.jobs[k].manifest, k.name) == keys)
    && (k in s.cluster.secrets ==> Holds(s.cluster, k, keys))
    && (s.cluster.Live(k) && k in s.cluster.secrets && s.cluster.secrets[k].owner.Some? ==>
          s.cluster.secrets[k].owner.value == s.cluster.jobs[k].uid)
    && (forall pid | At(s, pid, k) && s.calls[pid].CreatingJob? :: k in s.cluster.secrets || MisreadBy(s.log, pid, k))
  }

  lemma MisreadStays(log: seq<Event>, e: Event, pid: Pid, k: Key)
    requires MisreadBy(log, pid, k)
    ensures MisreadBy(log + [e], pid, k)
  {
    var i :| 0 <= i < |log| && log[i].pid == pid && log[i].misread && log[i].call.CreateSecret? && log[i].call.key == k;
    assert (log + [e])[i] == log[i];
  }

  lemma AdvanceKeepsCreators(s: System, pid: Pid, outcome: Outcome, k: Key, keys: set<string>)
    requires SecretFirst(s, k, keys) && OnlyRuns(s, k, keys) && InFlight(s, pid)
    ensures var t := Next(s, Advance(pid, outcome));
            forall q | At(t, q, k) && t.calls[q].CreatingJob? :: k in t.cluster.secrets || MisreadBy(t.log, q, k)
  {
    var t := Next(s, Advance(pid, outcome));
    var e := AdvanceLogs(s, pid, outcome);
    RepliesInform(s.cluster, e.call, outcome);
    forall q | At(t, q, k) && t.calls[q].CreatingJob? ensures k in t.cluster.secrets || MisreadBy(t.log, q, k) {
      if q == pid {
        assert At(s, pid, k) && s.calls[pid].CreatingSecret?;
        assert t.log[|s.log|] == e;
      } else {
        assert At(s, q, k);
        if k !in s.cluster.secrets {
          MisreadStays(s.log, e, q, k);
        }
      }
    }
  }

  lemma AdvanceKeepsSecretFirst(s: System, pid: Pid, outcome: Outcome, k: Key, keys: set<string>)
    requires SecretFirst(s, k, keys) && OnlyRuns(s, k, keys) && Calm(s, k) && keys != {} && InFlight(s, pid)
    ensures SecretFirst(Next(s, Advance(pid, outcome)), k, keys)
  {
    var p := s.calls[pid];
    var e := AdvanceLogs(s, pid, outcome);
    RequestsChangeOneName(s.cluster, e.call, outcome, k);
    AdvanceKeepsCreators(s, pid, outcome, k, keys);
    if Target(p) == k {
      assert At(s, pid, k);
      if p.CreatingJob? {
        JobNeedsItsSecrets(p.spec, p.namespace);
      }
    }
  }

  lemma AdvanceSecuresIff(s: System, pid: Pid, outcome: Outcome, k: Key, keys: set<string>)
    requires SecretFirst(s, k, keys) && OnlyRuns(s, k, keys) && Calm(s, k) && keys != {} && InFlight(s, pid)
    requires Secured(s.cluster, k)
    ensures Secured(Next(s, Advance(pid, outcome)).cluster, k) <==> !BareLanding(s, Advance(pid, outcome), k)
  {
    AdvanceKeepsSecretFirst(s, pid, outcome, k, keys);
    RequestsChangeOneName(s.cluster, Request(s.calls[pid]), outcome, k);
    assert Target(s.calls[pid]) == k ==> At(s, pid, k);
  }

  lemma BeginKeepsSecretFirst(s: System, pid: Pid, start: CallState, k: Key, keys: set<string>)
    requires SecretFirst(s, k, keys) && keys != {} && OnlyRuns(Next(s, Begin(pid, start)), k, keys)
    ensures SecretFirst(Next(s, Begin(pid, start)), k, keys)
  {
    var t := Next(s, Begin(pid, start));
    forall q | At(t, q, k) && t.calls[q].CreatingJob? ensures k in t.cluster.secrets || MisreadBy(t.log, q, k) {
      if q != pid || pid in s.calls { assert At(s, q, k); }
    }
  }

  lemma MoveKeepsSecretFirst(s: System, move: Move, k: Key, keys: set<string>)
    requires SecretFirst(s, k, keys) && Calm(s, k) && keys != {} && Secured(s.cluster, k)
    ensures SecretFirst(Next(s, Environment(move)), k, keys) && Secured(Next(s, Environment(move)).cluster, k)
  {
    MoveAges(s.cluster, move, k);
    forall q | At(Next(s, Environment(move)), q, k) ensures At(s, q, k) {}
  }

  lemma StepSecuresIff(s: System, step: Step, k: Key, keys: set<string>)
    requires SecretFirst(s, k, keys) && OnlyRuns(s, k, keys) && Calm(s, k) && keys != {} && Secured(s.cluster, k)
    requires OnlyRuns(Next(s, step), k, keys)
    ensures SecretFirst(Next(s, step), k, keys)
    ensures Secured(Next(s, step).cluster, k) <==> !BareLanding(s, step, k)
  {
    match step
    case Begin(pid, start) => BeginKeepsSecretFirst(s, pid, start, k, keys);
    case Advance(pid, outcome) =>
      if InFlight(s, pid) {
        AdvanceKeepsSecretFirst(s, pid, outcome, k, keys);
        AdvanceSecuresIff(s, pid, outcome, k, keys);
      }
    case Crash(pid) =>
      forall q | At(Next(s, step), q, k) ensures At(s, q, k) && s.calls[q] == Next(s, step).calls[q] {}
    case Environment(move) => MoveKeepsSecretFirst(s, move, k, keys);
  }

  lemma {:induction false} ExecutionSecuresIff(s: System, steps: seq<Step>, k: Key, keys: set<string>)
    requires SecretFirst(s, k, keys) && Secured(s.cluster, k) && keys != {} && CalmThroughout(s, steps, k, keys)
    ensures SecuredThroughout(s, steps, k) <==> NoBareLanding(s, steps, k)
    decreases |steps|
  {
    if steps == [] {
    } else {
      var t := Next(s, steps[0]);
      assert CalmThroughout(t, steps[1..], k, keys);
      StepSecuresIff(s, steps[0], k, keys);
      if Secured(t.cluster, k) {
        ExecutionSecuresIff(t, steps[1..], k, keys);
      }
    }
  }

  lemma {:induction false} MisreadIsLogged(s: System, steps: seq<Step>, pid: Pid, k: Key)
    requires MisreadBy(s.log, pid, k)
    ensures MisreadBy(Execute(s, steps).log, pid, k)
    decreases |steps|
  {
    if steps == [] {
    } else {
      var step := steps[0];
      if step.Advance? && InFlight(s, step.pid) {
        var e := AdvanceLogs(s, step.pid, step.outcome);
        MisreadStays(s.log, e, pid, k);
      }
      MisreadIsLogged(Next(s, step), steps[1..], pid, k);
    }
  }

  lemma {:induction false} BareLandingsAreLogged(s: System, steps: seq<Step>, k: Key)
    requires forall pid :: !MisreadBy(Execute(s, steps).log, pid, k)
    ensures NoBareLanding(s, steps, k)
    decreases |steps|
  {
    if steps == [] {
    } else {
      assert Execute(s, steps) == Execute(Next(s, steps[0]), steps[1..]);
      if BareLanding(s, steps[0], k) {
        MisreadIsLogged(s, steps, steps[0].pid, k);
      }
      BareLandingsAreLogged(Next(s, steps[0]), steps[1..], k);
    }
  }

  /** Secret before Job, over every interleaving: as long as only Runs of the name are in
      flight, none while the Secret's owner is gone and none that outlives its Job, a live
      Job's Secret exists in every state, holds every key the Job refers to and is safe from
      garbage collection, exactly if no Job is created without a Secret for a call whose
      create of it was refused with a conflict while the name was free; and so, in
      particular, if no create of the Secret was. */
  lemma SecretBeforeJobAlways(s: System, steps: seq<Step>, k: Key, keys: set<string>)
    requires s.calls == map[] && Secured(s.cluster, k) && (k in s.cluster.secrets ==> Holds(s.cluster, k, keys))
    requires s.cluster.Live(k) ==> Needs(s.cluster.jobs[k].manifest, k.name) == keys
    requires keys != {} && CalmThroughout(s, steps, k, keys)
    ensures SecuredThroughout(s, steps, k) <==> NoBareLanding(s, steps, k)
    ensures (forall pid :: !MisreadBy(Execute(s, steps).log, pid, k)) ==> SecuredThroughout(s, steps, k)
  {
    ExecutionSecuresIff(s, steps, k, keys);
    if forall pid :: !MisreadBy(Execute(s, steps).log, pid, k) {
      BareLandingsAreLogged(s, steps, k);
    }
  }

  /** The schedule begins nothing on k but Runs of specs with the secret keys `keys`, and
      the Job there does not expire. */
  predicate OnlyRunsBegin(steps: seq<Step>, k: Key, keys: set<string>) {
    forall step | step in steps ::
      && step != Environment(Expire(k))
      && (step.Begin? && IsStart(step.start) && Target(step.start) == k ==>
            step.start.CreatingSecret? && step.start.spec.secrets.Keys == keys)
  }

  /** A Job at k is not being deleted, and whoever owns the Secret or is about to is that Job. */
  ghost predicate Undeleted(s: System, k: Key) {
    && (k in s.cluster.jobs ==> s.cluster.Live(k))
    && !s.cluster.Doomed(k)
    && (forall pid | At(s, pid, k) && s.calls[pid].Adopting? :: s.cluster.LiveAs(k, s.calls[pid].uid))
  }

  lemma AdvanceKeepsUndeleted(s: System, pid: Pid, outcome: Outcome, k: Key, keys: set<string>)
    requires Undeleted(s, k) && OnlyRuns(s, k, keys) && InFlight(s, pid)
    ensures Undeleted(Next(s, Advance(pid, outcome)), k) && OnlyRuns(Next(s, Advance(pid, outcome)), k, keys)
  {
    var t := Next(s, Advance(pid, outcome));
    var e := AdvanceLogs(s, pid, outcome);
    RequestsChangeOneName(s.cluster, e.call, outcome, k);
    RepliesInform(s.cluster, e.call, outcome);
    assert Target(s.calls[pid]) == k ==> At(s, pid, k);
    forall q | At(t, q, k)
      ensures t.calls[q].CreatingSecret? || t.calls[q].CreatingJob? || t.calls[q].Adopting?
      ensures t.calls[q].spec.secrets.Keys == keys
      ensures t.calls[q].Adopting? ==> t.cluster.LiveAs(k, t.calls[q].uid)
    {
      if q != pid { assert At(s, q, k); }
    }
  }

  lemma StepKeepsUndeleted(s: System, step: Step, k: Key, keys: set<string>)
    requires Undeleted(s, k) && OnlyRuns(s, k, keys) && OnlyRunsBegin([step], k, keys)
    ensures Undeleted(Next(s, step), k) && OnlyRuns(Next(s, step), k, keys)
  {
    assert step in [step];
    var t := Next(s, step);
    if step.Advance? {
      if InFlight(s, step.pid) {
        AdvanceKeepsUndeleted(s, step.pid, step.outcome, k, keys);
      }
    } else {
      forall q | At(t, q, k) && !(step.Begin? && q == step.pid && q !in s.calls) ensures At(s, q, k) && s.calls[q] == t.calls[q] {}
    }
  }

  lemma {:induction false} UndeletedIsCalm(s: System, steps: seq<Step>, k: Key, keys: set<string>)
    requires Undeleted(s, k) && OnlyRuns(s, k, keys) && OnlyRunsBegin(steps, k, keys)
    ensures CalmThroughout(s, steps, k, keys)
    decreases |steps|
  {
    if steps == [] {
    } else {
      assert steps[0] in steps;
      StepKeepsUndeleted(s, steps[0], k, keys);
      UndeletedIsCalm(Next(s, steps[0]), steps[1..], k, keys);
    }
  }

  /** What a caller can see to beforehand is enough for the hypotheses of
      SecretBeforeJobAlways: it starts with no Job that is going and no Secret whose owner
      is, begins nothing but Runs of specs with the same keys, and the Job does not expire. */
  lemma SecretBeforeJobWithoutDeletion(s: System, steps: seq<Step>, k: Key, keys: set<string>)
    requires s.calls == map[] && keys != {} && OnlyRunsBegin(steps, k, keys)
    requires k in s.cluster.jobs ==> s.cluster.Live(k) && Needs(s.cluster.jobs[k].manifest, k.name) == keys && k in s.cluster.secrets
    requires k in s.cluster.secrets ==> Holds(s.cluster, k, keys) && !s.cluster.Doomed(k)
    ensures CalmThroughout(s, steps, k, keys)
    ensures SecuredThroughout(s, steps, k) <==> NoBareLanding(s, steps, k)
    ensures (forall pid :: !MisreadBy(Execute(s, steps).log, pid, k)) ==> SecuredThroughout(s, steps, k)
  {
    UndeletedIsCalm(s, steps, k, keys);
    SecretBeforeJobAlways(s, steps, k, keys);
  }

  // ---------------------------------------------------------------- Adoption holds

  /** Throughout, the Job uid lives, no call is about to delete its Secret, and no call in
      flight holds the UID of another, vanished Job. */
  ghost predicate LivesOn(s: System, steps: seq<Step>, k: Key, uid: Uid)
    decreases |steps|
  {
    && s.cluster.LiveAs(k, uid)
    && (forall pid | At(s, pid, k) :: !s.calls[pid].DeletingSecret? && (s.calls[pid].Adopting? ==> s.calls[pid].uid == uid))
    && (steps != [] ==> LivesOn(Next(s, steps[0]), steps[1..], k, uid))
  }

  /** Once the patch with the live Job's UID has landed, nothing takes the Secret away or
      changes it while the Job lives: no garbage collection, no other call. */
  lemma {:induction false} AdoptedSecretStays(s: System, steps: seq<Step>, k: Key, uid: Uid)
    requires LivesOn(s, steps, k, uid)
    requires k in s.cluster.secrets && s.cluster.secrets[k].owner == Some(uid)
    ensures k in Execute(s, steps).cluster.secrets
    ensures Execute(s, steps).cluster.secrets[k] == s.cluster.secrets[k]
    decreases |steps|
  {
    if steps == [] {
    } else {
      var step := steps[0];
      var t := Next(s, step);
      if step.Advance? && InFlight(s, step.pid) {
        var e := AdvanceLogs(s, step.pid, step.outcome);
        RequestsChangeOneName(s.cluster, e.call, step.outcome, k);
        assert Target(s.calls[step.pid]) == k ==> At(s, step.pid, k);
      }
      assert LivesOn(t, steps[1..], k, uid);
      assert t.cluster.LiveAs(k, uid);
      AdoptedSecretStays(t, steps[1..], k, uid);
    }
  }

  // ---------------------------------------------------------------- Exactly once

  ghost predicate Lands(e: Event, k: Key) {
    e.call.CreateJob? && e.call.key == k && e.landed.Some?
  }

  ghost predicate Patches(e: Event, k: Key) {
    e.call.AdoptSecret? && e.call.key == k
  }

  ghost function Landings(log: seq<Event>, k: Key): nat {
    if log == [] then 0 else Landings(log[..|log| - 1], k) + if Lands(log[|log| - 1], k) then 1 else 0
  }

  ghost function Adoptions(log: seq<Event>, k: Key): nat {
    if log == [] then 0 else Adoptions(log[..|log| - 1], k) + if Patches(log[|log| - 1], k) then 1 else 0
  }

  lemma CountOneMore(log: seq<Event>, e: Event, k: Key)
    ensures Landings(log + [e], k) == Landings(log, k) + if Lands(e, k) then 1 else 0
    ensures Adoptions(log + [e], k) == Adoptions(log, k) + if Patches(e, k) then 1 else 0
  {
    assert (log + [e])[..|log|] == log;
  }

  /** The call pid was answered that it created the Job uid at k, from a spec with secrets or without. */
  ghost predicate Wins(e: Event, pid: Pid, k: Key, uid: Uid) {
    e.pid == pid && e.call.CreateJob? && e.call.key == k && e.reply == Created(uid)
  }

  ghost predicate Won(log: seq<Event>, pid: Pid, k: Key, uid: Uid) {
    exists i | 0 <= i < |log| :: Wins(log[i], pid, k, uid)
  }

  /** No deletion: nothing but Runs on k, and the Job there is not expired. */
  ghost predicate NothingDeletes(s: System, steps: seq<Step>, k: Key)
    decreases |steps|
  {
    && (forall pid | At(s, pid, k) :: s.calls[pid].CreatingSecret? || s.calls[pid].CreatingJob? || s.calls[pid].Adopting?)
    && (steps != [] ==> steps[0] != Environment(Expire(k)) && NothingDeletes(Next(s, steps[0]), steps[1..], k))
  }

  /** One Create landed exactly if the Job is there and was not to begin with, and every
      answered one is it. */
  ghost predicate OneLanding(s: System, k: Key, was: bool) {
    && (k in s.cluster.jobs ==> !s.cluster.jobs[k].terminating)
    && (was ==> k in s.cluster.jobs)
    && Landings(s.log, k) == (if k in s.cluster.jobs && !was then 1 else 0)
    && (forall i | 0 <= i < |s.log| && Lands(s.log[i], k) :: k in s.cluster.jobs && s.log[i].landed.value == s.cluster.jobs[k].uid)
    && (forall i, j | 0 <= i < j < |s.log| :: !(Lands(s.log[i], k) && Lands(s.log[j], k)))
    && (forall i | 0 <= i < |s.log| && s.log[i].reply.Created? :: s.log[i].call.CreateJob? && s.log[i].landed == Some(s.log[i].reply.uid))
  }

  /** Who adopts has won. */
  ghost predicate WinnersAdopt(s: System, k: Key) {
    && (forall pid | At(s, pid, k) && s.calls[pid].Adopting? :: Won(s.log, pid, k, s.calls[pid].uid))
    && (forall i | 0 <= i < |s.log| && Patches(s.log[i], k) :: Won(s.log, s.log[i].pid, k, s.log[i].call.owner))
  }

  /** The winner is about to adopt, has adopted, or has crashed. */
  ghost predicate Settled(s: System, pid: Pid, k: Key)
    requires pid in s.calls
  {
    (At(s, pid, k) && s.calls[pid].Adopting?) ||
    (s.calls[pid].Returned? && (Adoptions(s.log, k) == 1 || s.calls[pid] == Returned(Some(CRASHED))))
  }

  /** It is done at most once, and a winner with secrets is not done before. */
  ghost predicate OneAdoption(s: System, k: Key) {
    && Adoptions(s.log, k) <= 1
    && (Adoptions(s.log, k) > 0 ==> forall pid | At(s, pid, k) :: !s.calls[pid].Adopting?)
    && (forall i | 0 <= i < |s.log| && s.log[i].call.CreateJob? && s.log[i].call.key == k && s.log[i].reply.Created? ::
          s.log[i].pid in s.calls &&
          (Needs(s.log[i].call.job, k.name) != {} ==> Settled(s, s.log[i].pid, k)))
  }

  lemma WonStays(log: seq<Event>, e: Event, pid: Pid, k: Key, uid: Uid)
    requires Won(log, pid, k, uid)
    ensures Won(log + [e], pid, k, uid)
  {
    var i :| 0 <= i < |log| && Wins(log[i], pid, k, uid);
    assert (log + [e])[i] == log[i];
  }

  lemma {:induction false} NoLandingsWithout(log: seq<Event>, k: Key)
    requires Landings(log, k) == 0
    ensures forall i | 0 <= i < |log| :: !Lands(log[i], k)
  {
    if log == [] {
    } else {
      NoLandingsWithout(log[..|log| - 1], k);
    }
  }

  /** A Run's request changes whether a Job is at k only by creating it. */
  lemma RunsOnlyLand(s: System, pid: Pid, outcome: Outcome, k: Key)
    requires InFlight(s, pid) && (k in s.cluster.jobs ==> !s.cluster.jobs[k].terminating)
    requires At(s, pid, k) ==> s.calls[pid].CreatingSecret? || s.calls[pid].CreatingJob? || s.calls[pid].Adopting?
    ensures var t := Next(s, Advance(pid, outcome));
            && (k in t.cluster.jobs ==> !t.cluster.jobs[k].terminating)
            && (k in s.cluster.jobs ==> k in t.cluster.jobs && t.cluster.jobs[k].uid == s.cluster.jobs[k].uid)
            && (k in t.cluster.jobs && k !in s.cluster.jobs <==> Lands(t.log[|s.log|], k))
            && (Lands(t.log[|s.log|], k) ==> t.cluster.jobs[k].uid == s.cluster.nextUid)
  {
    var e := AdvanceLogs(s, pid, outcome);
    RequestsChangeOneName(s.cluster, e.call, outcome, k);
  }

  /** A request that changes whether a Job is at k only by creating it. */
  lemma LandingGrows(s: System, t: System, e: Event, k: Key, was: bool)
    requires OneLanding(s, k, was) && t.log == s.log + [e]
    requires k in t.cluster.jobs ==> !t.cluster.jobs[k].terminating
    requires k in s.cluster.jobs ==> k in t.cluster.jobs && t.cluster.jobs[k].uid == s.cluster.jobs[k].uid
    requires k in t.cluster.jobs && k !in s.cluster.jobs <==> Lands(e, k)
    requires Lands(e, k) ==> t.cluster.jobs[k].uid == e.landed.value
    requires e.reply.Created? ==> e.call.CreateJob? && e.landed == Some(e.reply.uid)
    ensures OneLanding(t, k, was)
  {
    CountOneMore(s.log, e, k);
    if Lands(e, k) {
      NoLandingsWithout(s.log, k);
    }
  }

  lemma AdvanceLandsOnce(s: System, pid: Pid, outcome: Outcome, k: Key, was: bool)
    requires OneLanding(s, k, was) && InFlight(s, pid)
    requires At(s, pid, k) ==> s.calls[pid].CreatingSecret? || s.calls[pid].CreatingJob? || s.calls[pid].Adopting?
    ensures OneLanding(Next(s, Advance(pid, outcome)), k, was)
  {
    var e := AdvanceLogs(s, pid, outcome);
    RunsOnlyLand(s, pid, outcome, k);
    LandingGrows(s, Next(s, Advance(pid, outcome)), e, k, was);
  }

  lemma AdvanceKeepsWinners(s: System, pid: Pid, outcome: Outcome, k: Key)
    requires WinnersAdopt(s, k) && InFlight(s, pid)
    ensures WinnersAdopt(Next(s, Advance(pid, outcome)), k)
  {
    var t := Next(s, Advance(pid, outcome));
    var e := AdvanceLogs(s, pid, outcome);
    forall q | At(t, q, k) && t.calls[q].Adopting? ensures Won(t.log, q, k, t.calls[q].uid) {
      if q == pid {
        assert Wins(t.log[|s.log|], q, k, t.calls[q].uid);
      } else {
        assert At(s, q, k);
        WonStays(s.log, e, q, k, t.calls[q].uid);
      }
    }
    forall i | 0 <= i < |t.log| && Patches(t.log[i], k) ensures Won(t.log, t.log[i].pid, k, t.log[i].call.owner) {
      if i == |s.log| {
        assert At(s, pid, k) && s.calls[pid].Adopting?;
      } else {
        assert t.log[i] == s.log[i];
      }
      WonStays(s.log, e, t.log[i].pid, k, t.log[i].call.owner);
    }
  }

  /** Two calls that have won are one. */
  lemma OneWinner(s: System, k: Key, p: Pid, q: Pid, u: Uid, v: Uid, was: bool)
    requires OneLanding(s, k, was) && Won(s.log, p, k, u) && Won(s.log, q, k, v)
    ensures p == q && u == v
  {
    var i :| 0 <= i < |s.log| && Wins(s.log[i], p, k, u);
    var j :| 0 <= j < |s.log| && Wins(s.log[j], q, k, v);
    assert Lands(s.log[i], k) && Lands(s.log[j], k);
  }

  lemma {:induction false} NoPatchesNoAdoptions(log: seq<Event>, k: Key)
    requires forall i | 0 <= i < |log| :: !Patches(log[i], k)
    ensures Adoptions(log, k) == 0
  {
    if log == [] {
    } else {
      NoPatchesNoAdoptions(log[..|log| - 1], k);
    }
  }

  /** A Create that lands now finds that nobody has patched. */
  lemma NoAdoptionsYet(s: System, e: Event, k: Key, was: bool)
    requires OneLanding(s, k, was) && WinnersAdopt(s, k) && k !in s.cluster.jobs
    ensures Adoptions(s.log, k) == 0
  {
    NoLandingsWithout(s.log, k);
    forall pid, uid ensures !Won(s.log, pid, k, uid) {
      assert forall j | 0 <= j < |s.log| :: Wins(s.log[j], pid, k, uid) ==> Lands(s.log[j], k);
    }
    NoPatchesNoAdoptions(s.log, k);
  }

  /** A patch leaves nobody else about to patch. */
  lemma PatchIsTheLast(s: System, pid: Pid, outcome: Outcome, k: Key, was: bool)
    requires OneLanding(s, k, was) && WinnersAdopt(s, k) && At(s, pid, k) && s.calls[pid].Adopting?
    ensures forall q | At(Next(s, Advance(pid, outcome)), q, k) :: !Next(s, Advance(pid, outcome)).calls[q].Adopting?
  {
    var t := Next(s, Advance(pid, outcome));
    forall q | At(t, q, k) && t.calls[q].Adopting? ensures false {
      assert At(s, q, k);
      OneWinner(s, k, pid, q, s.calls[pid].uid, t.calls[q].uid, was);
    }
  }

  /** A winner of before stays settled. */
  lemma WinnerStaysSettled(s: System, pid: Pid, outcome: Outcome, k: Key, q: Pid)
    requires InFlight(s, pid) && q in s.calls && Settled(s, q, k)
    requires Adoptions(Next(s, Advance(pid, outcome)).log, k) <= 1
    ensures q in Next(s, Advance(pid, outcome)).calls && Settled(Next(s, Advance(pid, outcome)), q, k)
  {
    var e := AdvanceLogs(s, pid, outcome);
    CountOneMore(s.log, e, k);
  }

  lemma WinnersSettle(s: System, pid: Pid, outcome: Outcome, k: Key, i: nat)
    requires OneAdoption(s, k) && InFlight(s, pid) && Adoptions(Next(s, Advance(pid, outcome)).log, k) <= 1
    requires var log := Next(s, Advance(pid, outcome)).log;
             i < |log| && log[i].call.CreateJob? && log[i].call.key == k && log[i].reply.Created?
    ensures var t := Next(s, Advance(pid, outcome));
            t.log[i].pid in t.calls && (Needs(t.log[i].call.job, k.name) != {} ==> Settled(t, t.log[i].pid, k))
  {
    var t := Next(s, Advance(pid, outcome));
    var e := AdvanceLogs(s, pid, outcome);
    if i < |s.log| {
      assert t.log[i] == s.log[i];
      if Needs(t.log[i].call.job, k.name) != {} {
        WinnerStaysSettled(s, pid, outcome, k, t.log[i].pid);
      }
    } else {
      JobNeedsItsSecrets(s.calls[pid].spec, s.calls[pid].namespace);
    }
  }

  lemma AdvanceAdoptsOnce(s: System, pid: Pid, outcome: Outcome, k: Key, was: bool)
    requires OneLanding(s, k, was) && WinnersAdopt(s, k) && OneAdoption(s, k) && InFlight(s, pid)
    ensures OneAdoption(Next(s, Advance(pid, outcome)), k)
  {
    var t := Next(s, Advance(pid, outcome));
    var e := AdvanceLogs(s, pid, outcome);
    CountOneMore(s.log, e, k);
    if Patches(e, k) {
      PatchIsTheLast(s, pid, outcome, k, was);
    } else if e.reply.Created? && e.call.key == k {
      NoAdoptionsYet(s, e, k, was);
    }
    forall i | 0 <= i < |t.log| && t.log[i].call.CreateJob? && t.log[i].call.key == k && t.log[i].reply.Created?
      ensures t.log[i].pid in t.calls && (Needs(t.log[i].call.job, k.name) != {} ==> Settled(t, t.log[i].pid, k))
    {
      WinnersSettle(s, pid, outcome, k, i);
    }
  }

  /** Where no Create landed, none was answered as if it had, and nobody patched. */
  lemma NothingLandedNothingAdopted(s: System, k: Key)
    requires OneLanding(s, k, true) && WinnersAdopt(s, k)
    ensures Adoptions(s.log, k) == 0
    ensures forall i | 0 <= i < |s.log| && s.log[i].call.CreateJob? && s.log[i].call.key == k :: !s.log[i].reply.Created?
  {
    NoLandingsWithout(s.log, k);
    forall i | 0 <= i < |s.log| && s.log[i].call.CreateJob? && s.log[i].call.key == k ensures !s.log[i].reply.Created? {
      assert !Lands(s.log[i], k);
    }
    NoPatchesNoAdoptions(s.log, k);
  }

  ghost predicate Once(s: System, k: Key, was: bool) {
    OneLanding(s, k, was) && WinnersAdopt(s, k) && OneAdoption(s, k)
  }

  /** A step that makes no request and changes no call but by starting or crashing it. */
  lemma OthersStaySettled(s: System, t: System, k: Key)
    requires OneAdoption(s, k) && t.log == s.log && s.calls.Keys <= t.calls.Keys
    requires forall pid | pid in s.calls :: t.calls[pid] == s.calls[pid] || t.calls[pid] == Returned(Some(CRASHED))
    ensures forall i | 0 <= i < |t.log| && t.log[i].call.CreateJob? && t.log[i].call.key == k && t.log[i].reply.Created? ::
              t.log[i].pid in t.calls && (Needs(t.log[i].call.job, k.name) != {} ==> Settled(t, t.log[i].pid, k))
  {
    forall i | 0 <= i < |t.log| && t.log[i].call.CreateJob? && t.log[i].call.key == k && t.log[i].reply.Created?
      ensures t.log[i].pid in t.calls && (Needs(t.log[i].call.job, k.name) != {} ==> Settled(t, t.log[i].pid, k))
    {
      if Needs(s.log[i].call.job, k.name) != {} {
        assert Settled(s, s.log[i].pid, k);
      }
    }
  }

  lemma CrashKeepsOnce(s: System, pid: Pid, k: Key, was: bool)
    requires Once(s, k, was)
    ensures Once(Next(s, Crash(pid)), k, was)
  {
    var t := Next(s, Crash(pid));
    forall q | At(t, q, k) ensures At(s, q, k) && s.calls[q] == t.calls[q] {}
    OthersStaySettled(s, t, k);
  }

  lemma MoveKeepsOnce(s: System, move: Move, k: Key, was: bool)
    requires Once(s, k, was) && move != Expire(k)
    ensures Once(Next(s, Environment(move)), k, was)
  {
    var t := Next(s, Environment(move));
    assert k in s.cluster.jobs <==> k in t.cluster.jobs;
    forall q | At(t, q, k) ensures At(s, q, k) {}
    OthersStaySettled(s, t, k);
  }

  lemma BeginKeepsOnce(s: System, pid: Pid, start: CallState, k: Key, was: bool)
    requires Once(s, k, was)
    ensures Once(Next(s, Begin(pid, start)), k, was)
  {
    var t := Next(s, Begin(pid, start));
    forall q | At(t, q, k) && t.calls[q].Adopting? ensures At(s, q, k) && s.calls[q] == t.calls[q] {}
    OthersStaySettled(s, t, k);
  }

  lemma StepKeepsOnce(s: System, step: Step, k: Key, was: bool)
    requires Once(s, k, was) && NothingDeletes(s, [step], k)
    ensures Once(Next(s, step), k, was)
  {
    match step
    case Begin(pid, start) => BeginKeepsOnce(s, pid, start, k, was);
    case Advance(pid, outcome) =>
      if InFlight(s, pid) {
        AdvanceLandsOnce(s, pid, outcome, k, was);
        AdvanceKeepsWinners(s, pid, outcome, k);
        AdvanceAdoptsOnce(s, pid, outcome, k, was);
      }
    case Crash(pid) => CrashKeepsOnce(s, pid, k, was);
    case Environment(move) => MoveKeepsOnce(s, move, k, was);
  }

  lemma {:induction false} ExecutionKeepsOnce(s: System, steps: seq<Step>, k: Key, was: bool)
    requires Once(s, k, was) && NothingDeletes(s, steps, k)
    ensures Once(Execute(s, steps), k, was)
    decreases |steps|
  {
    if steps == [] {
    } else {
      assert NothingDeletes(Next(s, steps[0]), steps[1..], k);
      StepKeepsOnce(s, steps[0], k, was);
      ExecutionKeepsOnce(Next(s, steps[0]), steps[1..], k, was);
    }
  }

  /** Exactly-once dispatch: however many Runs of a name overlap and whatever faults they
      meet, as long as nothing is deleted at most one Create takes effect, it does so exactly
      if a Job is there that was not before, at most one patch is sent, only by the call
      that was answered with the Job's UID and with that UID, and if that call had secrets
      and returned other than by a crash, the patch was sent. Next to a Job that was there
      before, no Create takes effect, none is answered as if it had, and no patch is sent. */
  lemma DispatchedOnce(s: System, steps: seq<Step>, k: Key)
    requires Fresh(s) && (k in s.cluster.jobs ==> s.cluster.Live(k)) && NothingDeletes(s, steps, k)
    ensures var t := Execute(s, steps);
            && Landings(t.log, k) == (if k in t.cluster.jobs && k !in s.cluster.jobs then 1 else 0)
            && Adoptions(t.log, k) <= 1
            && (forall i | 0 <= i < |t.log| && Patches(t.log[i], k) ::
                  && Won(t.log, t.log[i].pid, k, t.log[i].call.owner)
                  && k in t.cluster.jobs && t.log[i].call.owner == t.cluster.jobs[k].uid)
            && (forall i | 0 <= i < |t.log| && t.log[i].call.CreateJob? && t.log[i].call.key == k && t.log[i].reply.Created? ::
                  t.log[i].pid in t.calls &&
                  (Needs(t.log[i].call.job, k.name) != {} && t.calls[t.log[i].pid] == Returned(None) ==> Adoptions(t.log, k) == 1))
            && (k in s.cluster.jobs ==>
                  k in t.cluster.jobs && Adoptions(t.log, k) == 0 &&
                  forall i | 0 <= i < |t.log| && t.log[i].call.CreateJob? && t.log[i].call.key == k :: !t.log[i].reply.Created?)
  {
    ExecutionKeepsOnce(s, steps, k, k in s.cluster.jobs);
    var t := Execute(s, steps);
    forall i | 0 <= i < |t.log| && Patches(t.log[i], k)
      ensures k in t.cluster.jobs && t.log[i].call.owner == t.cluster.jobs[k].uid
    {
      var j :| 0 <= j < |t.log| && Wins(t.log[j], t.log[i].pid, k, t.log[i].call.owner);
      assert Lands(t.log[j], k);
    }
    forall i | 0 <= i < |t.log| && t.log[i].call.CreateJob? && t.log[i].call.key == k && t.log[i].reply.Created? &&
               Needs(t.log[i].call.job, k.name) != {}
      ensures Settled(t, t.log[i].pid, k) {}
    if k in s.cluster.jobs {
      NothingLandedNothingAdopted(t, k);
    }
  }

  // ---------------------------------------------------------------- Nil unless refused

  /** The call's own request was refused with an error it does not swallow. */
  ghost predicate RefusedFor(e: Event, pid: Pid) {
    e.pid == pid && e.reply.Failed? &&
    match e.call
    case CreateSecret(_, _) => !Is(e.reply.error, ResourceConflict)
    case CreateJob(_, _) => !Is(e.reply.error, ResourceConflict)
    case AdoptSecret(_, _) => false
    case DeleteJob(_) => !Is(e.reply.error, ResourceNotFound)
    case DeleteSecret(_) => !Is(e.reply.error, ResourceNotFound)
  }

  ghost predicate NilUnlessRefused(s: System) {
    forall pid | pid in s.calls && s.calls[pid].Returned? && s.calls[pid] !in {Returned(None), Returned(Some(CRASHED))} ::
      exists i | 0 <= i < |s.log| :: RefusedFor(s.log[i], pid)
  }

  /** A call that was not cut short returns nil unless one of its requests was refused with
      an error other than the one it expects; a refused patch is no reason. */
  lemma {:induction false} CallsReturnNilUnlessRefused(s: System, steps: seq<Step>)
    requires NilUnlessRefused(s)
    ensures NilUnlessRefused(Execute(s, steps))
    decreases |steps|
  {
    if steps == [] {
    } else {
      var t := Next(s, steps[0]);
      if steps[0].Advance? && InFlight(s, steps[0].pid) {
        var pid := steps[0].pid;
        var e := AdvanceLogs(s, pid, steps[0].outcome);
        forall q | q in t.calls && t.calls[q].Returned? && t.calls[q] !in {Returned(None), Returned(Some(CRASHED))}
          ensures exists i | 0 <= i < |t.log| :: RefusedFor(t.log[i], q)
        {
          if q == pid {
            assert RefusedFor(t.log[|s.log|], q);
          } else {
            var i :| 0 <= i < |s.log| && RefusedFor(s.log[i], q);
            assert t.log[i] == s.log[i];
          }
        }
      }
      CallsReturnNilUnlessRefused(t, steps[1..]);
    }
  }
}
