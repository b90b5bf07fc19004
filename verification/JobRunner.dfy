/** The KubernetesClient interface over the shared store, and JobRunner written against
    it request by request. */
module JobRunner {
  import opened Common
  import opened Errors
  import opened Sorting
  import opened JobObjects
  import opened JobStatuses
  import opened Kubernetes
  import opened Clusters
  import opened JobProtocol
  import opened PodLogs
  import opened Aging
  import opened SequentialCalls

  /** call was the one request since c0 and ts0, and reply its answer. */
  ghost predicate Exchanged(c0: Cluster, ts0: seq<Turn>, call: Call, reply: Reply, c: Cluster, ts: seq<Turn>) {
    && |ts| == |ts0| + 1
    && ts[..|ts0|] == ts0
    && Serve(ApplyAll(c0, ts[|ts0|].moves), call, ts[|ts0|].outcome) == (c, reply)
  }

  function ErrorReply(err: Option<Error>): Reply {
    if err.Some? then Failed(err.value) else Acked
  }

  function CreateReply(created: Result<Uid, Error>): Reply {
    match created case Ok(uid) => Created(uid) case Err(e) => Failed(e)
  }

  /** One listing of pods and its answer. */
  datatype PodList = PodList(namespace: string, labelSelector: string, answer: Result<seq<Pod>, Error>)

  /** The error is one wrapK8sError makes. */
  ghost predicate FromApi(e: Error) {
    exists f :: e == WrapK8sError(f)
  }

  lemma IsFromApi(f: ApiFailure)
    ensures FromApi(WrapK8sError(f)) && (Is(WrapK8sError(f), ResourceNotFound) <==> f.class_.NotFound?)
  {
    WrappedHasOneSentinel(f, ResourceNotFound);
  }

  /** Nothing but the cluster's own moves lies between c and c'. */
  ghost predicate MovedOn(c: Cluster, c': Cluster) {
    exists moves :: ApplyAll(c, moves) == c'
  }

  lemma ByMoves(c: Cluster, moves: seq<Move>)
    ensures MovedOn(c, ApplyAll(c, moves))
  {
  }

  /** The API server as one client meets it. Every request may find the cluster moved on
      and may meet any fault, and pods and their logs may be others at each; turns, lists and
      answers record what happened. */
  class KubernetesClient {
    var cluster: Cluster
    ghost var turns: seq<Turn>
    ghost var lists: seq<PodList>
    ghost var answers: seq<LogRead>

    constructor (cluster: Cluster)
      ensures this.cluster == cluster && turns == [] && lists == [] && answers == []
    {
      this.cluster, turns, lists, answers := cluster, [], [], [];
    }

    /** One request. */
    method Exchange(call: Call) returns (reply: Reply)
      modifies this
      ensures Exchanged(old(cluster), old(turns), call, reply, cluster, turns)
    {
      var turn: Turn := *;
      turns := turns + [turn];
      var served := Serve(ApplyAll(cluster, turn.moves), call, turn.outcome);
      cluster, reply := served.0, served.1;
    }

    method Create(namespace: string, job: JobManifest) returns (created: Result<Uid, Error>)
      modifies this
      ensures Exchanged(old(cluster), old(turns), CreateJob(Key(namespace, job.name), job), CreateReply(created),
                        cluster, turns)
    {
      var reply := Exchange(CreateJob(Key(namespace, job.name), job));
      created := if reply.Failed? then Err(reply.error) else Ok(reply.uid);
    }

    method CreateSecret(namespace: string, secret: SecretManifest) returns (err: Option<Error>)
      modifies this
      ensures Exchanged(old(cluster), old(turns), Call.CreateSecret(Key(namespace, secret.name), secret), ErrorReply(err),
                        cluster, turns)
    {
      var reply := Exchange(Call.CreateSecret(Key(namespace, secret.name), secret));
      err := if reply.Failed? then Some(reply.error) else None;
    }

    /** The JSON patch that sets a Secret's owner references to one Job. */
    method Patch(namespace: string, name: string, owner: Uid) returns (err: Option<Error>)
      modifies this
      ensures Exchanged(old(cluster), old(turns), AdoptSecret(Key(namespace, name), owner), ErrorReply(err),
                        cluster, turns)
    {
      var reply := Exchange(AdoptSecret(Key(namespace, name), owner));
      err := if reply.Failed? then Some(reply.error) else None;
    }

    method Delete(namespace: string, name: string) returns (err: Option<Error>)
      modifies this
      ensures Exchanged(old(cluster), old(turns), DeleteJob(Key(namespace, name)), ErrorReply(err), cluster, turns)
    {
      var reply := Exchange(DeleteJob(Key(namespace, name)));
      err := if reply.Failed? then Some(reply.error) else None;
    }

    method DeleteSecret(namespace: string, name: string) returns (err: Option<Error>)
      modifies this
      ensures Exchanged(old(cluster), old(turns), Call.DeleteSecret(Key(namespace, name)), ErrorReply(err), cluster, turns)
    {
      var reply := Exchange(Call.DeleteSecret(Key(namespace, name)));
      err := if reply.Failed? then Some(reply.error) else None;
    }

    /** A read: the cluster may have moved on, and any error but a false not-found may come. */
    method GetJob(namespace: string, name: string) returns (r: Result<Job, Error>)
      modifies this`cluster
      ensures MovedOn(old(cluster), cluster)
      ensures r.Ok? ==> Key(namespace, name) in cluster.jobs && r.value == cluster.jobs[Key(namespace, name)]
      ensures r.Err? ==> FromApi(r.error) && (Is(r.error, ResourceNotFound) ==> Key(namespace, name) !in cluster.jobs)
    {
      var key := Key(namespace, name);
      var moves: seq<Move> := *;
      cluster := ApplyAll(cluster, moves);
      ByMoves(old(cluster), moves);
      var fault: Option<ApiFailure> := *;
      if fault.Some? && (fault.value.class_.NotFound? ==> key !in cluster.jobs) {
        r := Err(WrapK8sError(fault.value));
        IsFromApi(fault.value);
      } else if key in cluster.jobs {
        r := Ok(cluster.jobs[key]);
      } else {
        r := Err(WrapK8sError(ApiFailure(NotFound, "")));
        IsFromApi(ApiFailure(NotFound, ""));
      }
    }

    method ListPods(namespace: string, labelSelector: string) returns (r: Result<array<Pod>, Error>)
      modifies this`lists
      ensures r.Ok? ==> fresh(r.value)
      ensures lists == old(lists) + [PodList(namespace, labelSelector, match r case Ok(a) => Ok(a[..]) case Err(e) => Err(e))]
    {
      var answer: Result<seq<Pod>, Error> := *;
      lists := lists + [PodList(namespace, labelSelector, answer)];
      match answer
      case Err(e) => r := Err(e);
      case Ok(items) =>
        var a := new Pod[|items|](i requires 0 <= i < |items| => items[i]);
        assert a[..] == items;
        r := Ok(a);
    }

    method GetPodLogs(namespace: string, pod: string, container: string, tailLines: int) returns (r: LogReply)
      modifies this`answers
      ensures answers == old(answers) + [LogRead(LogRequest(namespace, pod, container, tailLines), r)]
    {
      r := *;
      answers := answers + [LogRead(LogRequest(namespace, pod, container, tailLines), r)];
    }
  }

  /** Since c0 and ts0 the call p0 has come as far as p. */
  ghost predicate Reached(c0: Cluster, ts0: seq<Turn>, p0: CallState, c: Cluster, ts: seq<Turn>, p: CallState) {
    |ts0| <= |ts| && ts[..|ts0|] == ts0 && Drive(c0, p0, ts[|ts0|..]) == (c, p)
  }

  /** What b has beyond n, if it begins with a. */
  lemma BeyondThePrefix<T>(a: seq<T>, b: seq<T>, n: nat)
    requires n <= |a| <= |b| && b[..|a|] == a
    ensures b[..n] == a[..n] && b[n..] == a[n..] + b[|a|..]
  {
    assert b == a + b[|a|..];
  }

  lemma ReachedNext(c0: Cluster, ts0: seq<Turn>, p0: CallState,
                    c: Cluster, ts: seq<Turn>, p: CallState, reply: Reply, c': Cluster, ts': seq<Turn>)
    requires Reached(c0, ts0, p0, c, ts, p) && !p.Returned?
    requires Exchanged(c, ts, Request(p), reply, c', ts')
    ensures Reached(c0, ts0, p0, c', ts', Resume(p, reply))
  {
    BeyondThePrefix(ts, ts', |ts0|);
    assert ts'[|ts|..] == [ts'[|ts|]];
    DriveOneMore(c0, p0, ts[|ts0|..], ts'[|ts|]);
  }

  lemma ReachedThen(c0: Cluster, ts0: seq<Turn>, p0: CallState, c: Cluster, ts: seq<Turn>, p: CallState,
                    c': Cluster, ts': seq<Turn>, p': CallState)
    requires Reached(c0, ts0, p0, c, ts, p) && Reached(c, ts, p, c', ts', p')
    ensures Reached(c0, ts0, p0, c', ts', p')
  {
    BeyondThePrefix(ts, ts', |ts0|);
    DriveInTwo(c0, p0, ts[|ts0|..], ts'[|ts|..]);
  }

  /** What the answer to a delete request tells. */
  lemma DeleteAnswered(c: Cluster, ts: seq<Turn>, call: Call, reply: Reply, c': Cluster, ts': seq<Turn>)
    requires Exchanged(c, ts, call, reply, c', ts') && (call.DeleteJob? || call.DeleteSecret?)
    ensures !(reply.Failed? && !Is(reply.error, ResourceNotFound)) ==>
            if call.DeleteJob? then !c'.Live(call.key)
            else call.key !in c'.secrets && (!c.Live(call.key) ==> !c'.Live(call.key))
  {
    MovesAge(c, ts'[|ts|].moves, call.key);
    RepliesInform(ApplyAll(c, ts'[|ts|].moves), call, ts'[|ts|].outcome);
  }

  /** What a nil Replace leaves: the outcome of ReplaceRefreshes, and the Secret exactly if
      its create was not misread. */
  ghost predicate Replaced(c0: Cluster, ts0: seq<Turn>, namespace: string, spec: JobSpec, c: Cluster, ts: seq<Turn>)
    requires |ts0| <= |ts|
  {
    && ReplaceOutcome(c0, c, namespace, spec)
    && (spec.secrets != map[] ==>
          (Key(namespace, spec.name) in c.secrets <==> !Misreads(c0, StartReplace(namespace, spec), ts[|ts0|..]).secret))
  }

  lemma ReplaceReturned(c0: Cluster, ts0: seq<Turn>, namespace: string, spec: JobSpec, c: Cluster, ts: seq<Turn>)
    requires Reached(c0, ts0, StartReplace(namespace, spec), c, ts, Returned(None))
    ensures Replaced(c0, ts0, namespace, spec, c, ts)
  {
    ReplaceRefreshes(c0, namespace, spec, ts[|ts0|..]);
  }

  class JobRunner {
    const kube: KubernetesClient

    constructor (kube: KubernetesClient)
      ensures this.kube == kube
    {
      this.kube := kube;
    }

    /** Run returns err after exactly the requests of its program. */
    method Run(namespace: string, spec: JobSpec) returns (err: Option<Error>)
      modifies kube
      ensures Reached(old(kube.cluster), old(kube.turns), StartRun(namespace, spec), kube.cluster, kube.turns, Returned(err))
      ensures err.Some? ==> !Is(err.value, ResourceConflict)
    {
      ghost var c0, ts0, p0 := kube.cluster, kube.turns, StartRun(namespace, spec);
      ghost var c, ts := c0, ts0;
      var hasSecret := |spec.secrets| > 0;
      if hasSecret {
        err := kube.CreateSecret(namespace, BuildJobSecret(spec, namespace));
        ReachedNext(c0, ts0, p0, c0, ts0, p0, ErrorReply(err), kube.cluster, kube.turns);
        if err.Some? && !Is(err.value, ResourceConflict) {
          return Some(Wrap("creating credentials secret for job " + spec.name + ": ", err.value, ""));
        }
        c, ts := kube.cluster, kube.turns;
      }
      var job := BuildJob(spec, namespace);
      var created := kube.Create(namespace, job);
      ReachedNext(c0, ts0, p0, c, ts, CreatingJob(namespace, spec), CreateReply(created), kube.cluster, kube.turns);
      if created.Err? {
        if Is(created.error, ResourceConflict) {
          return None;
        }
        return Some(Wrap("creating job " + spec.name + ": ", created.error, ""));
      }
      if hasSecret {
        c, ts := kube.cluster, kube.turns;
        ghost var reply := AdoptSecret(namespace, spec.name, created.value);
        ReachedNext(c0, ts0, p0, c, ts, Adopting(namespace, spec, created.value), reply, kube.cluster, kube.turns);
      }
      return None;
    }

    /** adoptSecret: one patch, whatever comes of it. */
    method AdoptSecret(namespace: string, name: string, owner: Uid) returns (ghost reply: Reply)
      modifies kube
      ensures Exchanged(old(kube.cluster), old(kube.turns), Call.AdoptSecret(Key(namespace, name), owner), reply,
                        kube.cluster, kube.turns)
    {
      var err := kube.Patch(namespace, name, owner);
      reply := ErrorReply(err);
    }

    /** Delete returns err after exactly the requests of its program. As the first half of
        Replace it stops where the dispatch begins. */
    method Delete(namespace: string, name: string, ghost goal: Goal := Remove(name)) returns (err: Option<Error>)
      requires goal.Name() == name
      modifies kube
      ensures Reached(old(kube.cluster), old(kube.turns), DeletingJob(namespace, goal), kube.cluster, kube.turns,
                      if err.None? then AfterDelete(namespace, goal) else Returned(err))
      ensures err.Some? ==> !Is(err.value, ResourceNotFound)
      ensures err.None? ==> !kube.cluster.Live(Key(namespace, name)) && Key(namespace, name) !in kube.cluster.secrets
    {
      ghost var c0, ts0, p0 := kube.cluster, kube.turns, DeletingJob(namespace, goal);
      err := kube.Delete(namespace, name);
      ReachedNext(c0, ts0, p0, c0, ts0, p0, ErrorReply(err), kube.cluster, kube.turns);
      DeleteAnswered(c0, ts0, DeleteJob(Key(namespace, name)), ErrorReply(err), kube.cluster, kube.turns);
      if err.Some? && !Is(err.value, ResourceNotFound) {
        return Some(Wrap("deleting job " + name + ": ", err.value, ""));
      }
      ghost var c, ts := kube.cluster, kube.turns;
      err := kube.DeleteSecret(namespace, name);
      ReachedNext(c0, ts0, p0, c, ts, DeletingSecret(namespace, goal), ErrorReply(err), kube.cluster, kube.turns);
      DeleteAnswered(c, ts, Call.DeleteSecret(Key(namespace, name)), ErrorReply(err), kube.cluster, kube.turns);
      if err.Some? && !Is(err.value, ResourceNotFound) {
        return Some(Wrap("deleting credentials secret for job " + name + ": ", err.value, ""));
      }
      return None;
    }

    /** Replace returns err after exactly the requests of its program. */
    method Replace(namespace: string, spec: JobSpec) returns (err: Option<Error>)
      modifies kube
      ensures Reached(old(kube.cluster), old(kube.turns), StartReplace(namespace, spec), kube.cluster, kube.turns, Returned(err))
      ensures err.None? ==> Replaced(old(kube.cluster), old(kube.turns), namespace, spec, kube.cluster, kube.turns)
    {
      ghost var c0, ts0, p0 := kube.cluster, kube.turns, StartReplace(namespace, spec);
      err := Delete(namespace, spec.name, Redispatch(spec));
      if err.Some? {
        return err;
      }
      ghost var c, ts := kube.cluster, kube.turns;
      err := Run(namespace, spec);
      ReachedThen(c0, ts0, p0, c, ts, StartRun(namespace, spec), kube.cluster, kube.turns, Returned(err));
      if err.None? {
        ReplaceReturned(c0, ts0, namespace, spec, kube.cluster, kube.turns);
      }
    }

    /** Since lists0 and answers0 the pods of the Job were listed once, and what they had to say
        explains its failure. */
    ghost predicate ExplainsFailure(namespace: string, name: string, explanation: string,
                                    lists0: seq<PodList>, answers0: seq<LogRead>)
      reads kube
    {
      && kube.lists != [] && kube.lists[..|kube.lists| - 1] == lists0
      && |answers0| <= |kube.answers| && kube.answers[..|answers0|] == answers0
      && var list := kube.lists[|kube.lists| - 1];
         && list.namespace == namespace && list.labelSelector == "job-name=" + name
         && match list.answer
            case Err(_) => explanation == "" && kube.answers == answers0
            case Ok(listed) => Explains(listed, kube.answers[|answers0|..], namespace, explanation)
    }

    /** The scan of failedPodLogs. */
    method FirstReadableLog(namespace: string, pods: array<Pod>) returns (logs: string)
      modifies kube`answers
      ensures |old(kube.answers)| <= |kube.answers| && kube.answers[..|old(kube.answers)|] == old(kube.answers)
      ensures Scanned(pods[..], kube.answers[|old(kube.answers)|..], namespace, logs)
    {
      ghost var before, asked := kube.answers, [];
      for i := 0 to pods.Length
        invariant kube.answers == before + asked && |asked| == i
        invariant forall j | 0 <= j < i :: asked[j].request == TailOf(namespace, pods[j]) && Said(asked[j].reply) == ""
      {
        var reply := kube.GetPodLogs(namespace, pods[i].name, JOB_CONTAINER_NAME, FAILURE_LOG_TAIL_LINES);
        ghost var answer := LogRead(TailOf(namespace, pods[i]), reply);
        assert before + asked + [answer] == before + (asked + [answer]);
        asked := asked + [answer];
        if reply.Ok? && reply.value != "" {
          assert kube.answers[|before|..] == asked;
          return reply.value;
        }
      }
      assert kube.answers[|before|..] == asked;
      return "";
    }

    /** failedPodLogs: sort the listed pods in place, newest first, and take the first
        readable log. */
    method FailedPodLogs(namespace: string, jobName: string) returns (logs: string)
      modifies kube`lists, kube`answers
      ensures ExplainsFailure(namespace, jobName, logs, old(kube.lists), old(kube.answers))
    {
      var r := kube.ListPods(namespace, "job-name=" + jobName);
      if r.Err? {
        return "";
      }
      var pods := r.value;
      ghost var listed := pods[..];
      NewerIsAnOrder();
      SortSlice(pods, Newer);
      logs := FirstReadableLog(namespace, pods);
      FirstReadableExplains(listed, pods[..], kube.answers[|old(kube.answers)|..], namespace, logs);
    }

    /** State: an absent Job is no error, any other error is passed on, and an existing Job
        is reported as it was read, its failure explained by its newest readable pod. */
    method State(namespace: string, name: string) returns (r: Result<JobState, Error>)
      modifies kube`cluster, kube`lists, kube`answers
      ensures MovedOn(old(kube.cluster), kube.cluster)
      ensures r.Err? ==> r.error.Wrap? && r.error.before == "getting job " + name + ": " && r.error.after == "" &&
                         FromApi(r.error.inner) && !Is(r.error.inner, ResourceNotFound)
      ensures r.Ok? ==>
                exists logs :: Polled(kube.cluster, Key(namespace, name), logs, r.value) &&
                               (r.value.phase.PhaseFailed? ==>
                                  ExplainsFailure(namespace, name, logs, old(kube.lists), old(kube.answers)))
      ensures (r.Ok? && r.value.phase.PhaseFailed?) || (kube.lists == old(kube.lists) && kube.answers == old(kube.answers))
    {
      var got := kube.GetJob(namespace, name);
      if got.Err? {
        if Is(got.error, ResourceNotFound) {
          assert Polled(kube.cluster, Key(namespace, name), "", NO_JOB);
          return Ok(NO_JOB);
        }
        return Err(Wrap("getting job " + name + ": ", got.error, ""));
      }
      var status := got.value.status;
      var state := JobState(PhasePending, TimePtr(status.startTime), TimePtr(status.completionTime), "");
      if ConditionTrue(status.conditions, Complete) {
        state := state.(phase := PhaseSucceeded);
      } else if ConditionTrue(status.conditions, FailedCondition) {
        var logs := FailedPodLogs(namespace, name);
        state := state.(phase := PhaseFailed, reason := FailureReason(status.conditions, logs));
        if state.finishedAt.None? {
          state := state.(finishedAt := ConditionTime(status.conditions, FailedCondition));
        }
        assert Polled(kube.cluster, Key(namespace, name), logs, state);
      } else if status.active > 0 {
        state := state.(phase := PhaseRunning);
      }
      assert !state.phase.PhaseFailed? ==> Polled(kube.cluster, Key(namespace, name), "", state);
      return Ok(state);
    }
  }
}
