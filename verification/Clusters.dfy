/** The shared store behind the KubernetesClient interface: what one API request does,
    what faults it may meet, and what the cluster does on its own in between. */
module Clusters {
  import opened Common
  import opened Errors
  import opened JobObjects
  import opened JobStatuses
  import opened Kubernetes

  datatype Key = Key(namespace: string, name: string)

  type Uid = nat

  datatype Job = Job(uid: Uid, terminating: bool, manifest: JobManifest, status: JobStatus)

  datatype Secret = Secret(manifest: SecretManifest, owner: Option<Uid>)

  /** UIDs below nextUid have been handed out. */
  datatype Cluster = Cluster(jobs: map<Key, Job>, secrets: map<Key, Secret>, nextUid: Uid)
  {
    /** A Job that exists and is not being deleted. */
    predicate Live(k: Key) {
      k in jobs && !jobs[k].terminating
    }

    predicate LiveAs(k: Key, uid: Uid) {
      Live(k) && jobs[k].uid == uid
    }

    /** The Secret names an owner that is gone or going. */
    predicate Doomed(k: Key) {
      k in secrets && secrets[k].owner.Some? && !LiveAs(k, secrets[k].owner.value)
    }

    predicate UidsIssued() {
      forall k | k in jobs :: jobs[k].uid < nextUid
    }
  }

  /** What happens without the library: the Job controller reports progress, the TTL
      controller deletes a finished Job, a deleted Job disappears, and the garbage
      collector removes a Secret whose owner is gone or going. */
  datatype Move =
    | Progress(key: Key, status: JobStatus)
    | Expire(key: Key)
    | Vanish(key: Key)
    | Collect(key: Key)

  predicate Enabled(c: Cluster, m: Move) {
    match m
    case Progress(k, status) => k in c.jobs && Progresses(c.jobs[k].status, status)
    case Expire(k) => k in c.jobs && Decided(Verdicts(c.jobs[k].status.conditions))
    case Vanish(k) => k in c.jobs && c.jobs[k].terminating
    case Collect(k) => c.Doomed(k)
  }

  function Apply(c: Cluster, m: Move): Cluster {
    if !Enabled(c, m) then c
    else
      match m
      case Progress(k, status) => c.(jobs := c.jobs[k := c.jobs[k].(status := status)])
      case Expire(k) => c.(jobs := c.jobs[k := c.jobs[k].(terminating := true)])
      case Vanish(k) => c.(jobs := c.jobs - {k})
      case Collect(k) => c.(secrets := c.secrets - {k})
  }

  function ApplyAll(c: Cluster, ms: seq<Move>): Cluster
    decreases |ms|
  {
    if ms == [] then c else ApplyAll(Apply(c, ms[0]), ms[1..])
  }

  /** The requests the job runner makes. */
  datatype Call =
    | CreateSecret(key: Key, secret: SecretManifest)
    | CreateJob(key: Key, job: JobManifest)
    | AdoptSecret(key: Key, owner: Uid)
    | DeleteJob(key: Key)
    | DeleteSecret(key: Key)

  datatype Reply = Created(uid: Uid) | Acked | Failed(error: Error)

  /** How a request fares. Served means the API server answers it as it stands. Faulty
      means an error comes back; landed says whether the request took effect all the same. */
  datatype Outcome = Served | Faulty(class_: ApiClass, text: string, landed: bool)

  predicate Accepts(c: Cluster, call: Call) {
    match call
    case CreateSecret(k, _) => k !in c.secrets
    case CreateJob(k, _) => k !in c.jobs
    case AdoptSecret(k, _) => k in c.secrets
    case DeleteJob(k) => k in c.jobs
    case DeleteSecret(k) => k in c.secrets
  }

  function Effect(c: Cluster, call: Call): Cluster
    requires Accepts(c, call)
  {
    match call
    case CreateSecret(k, secret) => c.(secrets := c.secrets[k := Secret(secret, None)])
    case CreateJob(k, job) => c.(jobs := c.jobs[k := Job(c.nextUid, false, job, NEW_JOB)], nextUid := c.nextUid + 1)
    case AdoptSecret(k, owner) => c.(secrets := c.secrets[k := c.secrets[k].(owner := Some(owner))])
    case DeleteJob(k) => c.(jobs := c.jobs[k := c.jobs[k].(terminating := true)])
    case DeleteSecret(k) => c.(secrets := c.secrets - {k})
  }

  /** The refusal of a request that cannot be accepted. */
  function Refusal(call: Call): ApiClass {
    if call.CreateSecret? || call.CreateJob? then AlreadyExists else NotFound
  }

  /** An API server does not claim that something exists or is gone when it is not. Every
      other error may come at any time, a conflict other than AlreadyExists included. */
  predicate Honest(after: Cluster, call: Call, class_: ApiClass) {
    match call
    case CreateSecret(k, _) => class_ == AlreadyExists ==> k in after.secrets
    case CreateJob(k, _) => class_ == AlreadyExists ==> k in after.jobs
    case AdoptSecret(_, _) => true
    case DeleteJob(k) => class_ == NotFound ==> k !in after.jobs
    case DeleteSecret(k) => class_ == NotFound ==> k !in after.secrets
  }

  /** A create is refused with a conflict though its name is free: not because the object
      exists, but wrapK8sError makes the same sentinel of it. */
  predicate FalseConflict(c: Cluster, call: Call, outcome: Outcome) {
    && (call.CreateSecret? || call.CreateJob?) && Accepts(c, call)
    && outcome.Faulty? && outcome.class_ == Conflict && !outcome.landed
  }

  /** One request: the cluster after it and the reply. A fault of a class that would be a
      false claim counts as one of class Other. */
  function Serve(c: Cluster, call: Call, outcome: Outcome): (Cluster, Reply) {
    match outcome
    case Served =>
      if !Accepts(c, call) then (c, Failed(WrapK8sError(ApiFailure(Refusal(call), ""))))
      else (Effect(c, call), if call.CreateJob? then Created(c.nextUid) else Acked)
    case Faulty(class_, text, landed) =>
      var after := if landed && Accepts(c, call) then Effect(c, call) else c;
      var reported := if Honest(after, call, class_) then class_ else Other;
      (after, Failed(WrapK8sError(ApiFailure(reported, text))))
  }

  /** What two clusters have at one name. */
  predicate SameAt(a: Cluster, b: Cluster, k: Key) {
    && (k in a.jobs <==> k in b.jobs) && (k in a.jobs ==> a.jobs[k] == b.jobs[k])
    && (k in a.secrets <==> k in b.secrets) && (k in a.secrets ==> a.secrets[k] == b.secrets[k])
  }

  /** What one request can change: its own name, and there no more than its kind allows. */
  lemma RequestsChangeOneName(c: Cluster, call: Call, outcome: Outcome, k: Key)
    ensures var d := Serve(c, call, outcome).0;
            && c.nextUid <= d.nextUid <= c.nextUid + 1
            && (d.nextUid > c.nextUid ==> call.CreateJob? && call.key !in c.jobs && call.key in d.jobs && d.jobs[call.key].uid == c.nextUid)
            && (k in d.jobs ==> (k in c.jobs && d.jobs[k].uid == c.jobs[k].uid) || (k == call.key && d.nextUid > c.nextUid))
            && (k in d.jobs && k in c.jobs ==>
                  d.jobs[k].status == c.jobs[k].status && d.jobs[k].manifest == c.jobs[k].manifest)
            && (k in d.secrets && d.secrets[k].owner.Some? ==>
                  (k in c.secrets && c.secrets[k].owner == d.secrets[k].owner) || call == AdoptSecret(k, d.secrets[k].owner.value))
            && (k != call.key ==> SameAt(c, d, k))
  {
  }

  /** What a reply tells its reader. */
  lemma RepliesInform(c: Cluster, call: Call, outcome: Outcome)
    ensures var (d, reply) := Serve(c, call, outcome);
            && (reply.Created? ==> call.CreateJob? && call.key !in c.jobs && reply.uid == c.nextUid && call.key in d.jobs)
            && (call.CreateJob? ==> !reply.Acked?)
            && (reply.Failed? && Is(reply.error, ResourceConflict) ==>
                  && (call.CreateSecret? ==> (call.key in d.secrets <==> !FalseConflict(c, call, outcome)))
                  && (call.CreateJob? ==> (call.key in d.jobs <==> !FalseConflict(c, call, outcome))))
            && (FalseConflict(c, call, outcome) ==> d == c && reply.Failed? && Is(reply.error, ResourceConflict))
            && (call.CreateSecret? && !reply.Failed? ==> call.key in d.secrets)
            && (reply.Failed? && Is(reply.error, ResourceNotFound) ==>
                  && (call.DeleteJob? ==> call.key !in d.jobs)
                  && (call.DeleteSecret? ==> call.key !in d.secrets))
            && (outcome.Served? ==> (reply.Failed? <==> !Accepts(c, call)))
            && (outcome.Served? && reply.Failed? ==> Is(reply.error, SentinelOf(Refusal(call))))
            && (reply.Failed? ==> exists f :: reply.error == WrapK8sError(f))
  {
    var (d, reply) := Serve(c, call, outcome);
    match outcome
    case Served =>
      WrappedHasOneSentinel(ApiFailure(Refusal(call), ""), ResourceConflict);
      WrappedHasOneSentinel(ApiFailure(Refusal(call), ""), ResourceNotFound);
    case Faulty(class_, text, landed) =>
      var reported := if Honest(d, call, class_) then class_ else Other;
      WrappedHasOneSentinel(ApiFailure(reported, text), ResourceConflict);
      WrappedHasOneSentinel(ApiFailure(reported, text), ResourceNotFound);
  }

  /** What State answers for the name k of a cluster. */
  ghost predicate Polled(c: Cluster, k: Key, logs: string, s: JobState) {
    if k in c.jobs then Reports(c.jobs[k].status, logs, s) else s == NO_JOB
  }
}
