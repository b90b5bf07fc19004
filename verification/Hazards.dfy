/** What dispatch does not withstand: for every spec with secrets, short runs of the system
    break its promises without the hypotheses made elsewhere. */
module Hazards {
  import opened Common
  import opened JobObjects
  import opened JobStatuses
  import opened Kubernetes
  import opened Clusters
  import opened JobProtocol
  import opened SecretBeforeJob
  import opened ConcurrentCalls

  const EMPTY := System(Cluster(map[], map[], 0), map[], [])

  lemma ThreeSteps(s: System, steps: seq<Step>)
    requires |steps| == 3
    ensures Execute(s, steps) == Next(Next(Next(s, steps[0]), steps[1]), steps[2])
  {
    assert steps == [steps[0], steps[1], steps[2]];
    var rest := [steps[1], steps[2]];
    assert steps[1..] == rest && rest[1..] == [steps[2]] && [steps[2]][1..] == [];
    var s1 := Next(s, steps[0]);
    var s2 := Next(s1, steps[1]);
    assert Execute(s2, [steps[2]]) == Next(s2, steps[2]);
    assert Execute(s1, rest) == Next(s2, steps[2]);
  }

  lemma SixSteps(s: System, steps: seq<Step>, t: System)
    requires |steps| == 6
    requires t == Next(Next(Next(Next(Next(Next(s, steps[0]), steps[1]), steps[2]), steps[3]), steps[4]), steps[5])
    ensures Execute(s, steps) == t
  {
    ExecuteInTwo(s, steps[..3], steps[3..]);
    assert steps == steps[..3] + steps[3..];
    ThreeSteps(s, steps[..3]);
    ThreeSteps(Execute(s, steps[..3]), steps[3..]);
  }

  lemma SecretCreated(s: System, pid: Pid, namespace: string, spec: JobSpec)
    requires pid in s.calls && s.calls[pid] == CreatingSecret(namespace, spec)
    ensures var t, k := Next(s, Advance(pid, Served)), Key(namespace, spec.name);
            && t.calls == s.calls[pid := CreatingJob(namespace, spec)]
            && t.cluster == if k in s.cluster.secrets then s.cluster
                            else s.cluster.(secrets := s.cluster.secrets[k := Secret(BuildJobSecret(spec, namespace), None)])
  {
    RepliesInform(s.cluster, Request(s.calls[pid]), Served);
  }

  lemma JobCreated(s: System, pid: Pid, namespace: string, spec: JobSpec)
    requires pid in s.calls && s.calls[pid] == CreatingJob(namespace, spec) && spec.secrets != map[]
    requires Key(namespace, spec.name) !in s.cluster.jobs
    ensures var t, k, uid := Next(s, Advance(pid, Served)), Key(namespace, spec.name), s.cluster.nextUid;
            && t.calls == s.calls[pid := Adopting(namespace, spec, uid)]
            && t.cluster == s.cluster.(jobs := s.cluster.jobs[k := Job(uid, false, JobFor(spec, namespace), NEW_JOB)],
                                       nextUid := uid + 1)
  {
  }

  lemma SecretAdopted(s: System, pid: Pid, namespace: string, spec: JobSpec, uid: Uid)
    requires pid in s.calls && s.calls[pid] == Adopting(namespace, spec, uid)
    requires Key(namespace, spec.name) in s.cluster.secrets
    ensures var t, k := Next(s, Advance(pid, Served)), Key(namespace, spec.name);
            && t.calls == s.calls[pid := Returned(None)]
            && t.cluster == s.cluster.(secrets := s.cluster.secrets[k := s.cluster.secrets[k].(owner := Some(uid))])
  {
  }

  lemma NothingButSecretDeleted(s: System, pid: Pid, namespace: string, name: string)
    requires pid in s.calls && s.calls[pid] == StartDelete(namespace, name) && Key(namespace, name) !in s.cluster.jobs
    ensures var t := Next(Next(s, Advance(pid, Served)), Advance(pid, Served));
            t.calls == s.calls[pid := Returned(None)] &&
            t.cluster.jobs == s.cluster.jobs && t.cluster.secrets == s.cluster.secrets - {Key(namespace, name)}
  {
    var k := Key(namespace, name);
    RepliesInform(s.cluster, DeleteJob(k), Served);
    var t := Next(s, Advance(pid, Served));
    assert t.cluster == s.cluster && t.calls == s.calls[pid := DeletingSecret(namespace, Remove(name))];
    RepliesInform(t.cluster, DeleteSecret(k), Served);
    assert k !in s.cluster.secrets ==> s.cluster.secrets - {k} == s.cluster.secrets;
  }

  /** A Delete between a Run's two creates: the Job starts without its Secret. */
  lemma OverlappingDeleteBreaks(namespace: string, spec: JobSpec) returns (steps: seq<Step>)
    requires spec.secrets != map[]
    ensures !Resolved(Execute(EMPTY, steps).cluster, Key(namespace, spec.name))
  {
    var k := Key(namespace, spec.name);
    var run, delete := StartRun(namespace, spec), StartDelete(namespace, spec.name);
    steps := [Begin(0, run), Advance(0, Served), Begin(1, delete), Advance(1, Served), Advance(1, Served), Advance(0, Served)];
    var s1 := Next(EMPTY, steps[0]);
    var s2 := Next(s1, steps[1]);
    SecretCreated(s1, 0, namespace, spec);
    var s3 := Next(s2, steps[2]);
    var s5 := Next(Next(s3, steps[3]), steps[4]);
    NothingButSecretDeleted(s3, 1, namespace, spec.name);
    var s6 := Next(s5, steps[5]);
    JobCreated(s5, 0, namespace, spec);
    JobNeedsItsSecrets(spec, namespace);
    SixSteps(EMPTY, steps, s6);
  }

  /** The first Job is gone, its Run still about to patch. */
  ghost predicate Stale(s: System, namespace: string, spec: JobSpec) {
    && s.calls == map[0 := Adopting(namespace, spec, 0)]
    && s.cluster == Cluster(map[], map[Key(namespace, spec.name) := Secret(BuildJobSecret(spec, namespace), None)], 1)
  }

  lemma FirstJobVanishes(namespace: string, spec: JobSpec, early: seq<Step>) returns (s: System)
    requires spec.secrets != map[]
    requires var k, run := Key(namespace, spec.name), StartRun(namespace, spec);
             early == [Begin(0, run), Advance(0, Served), Advance(0, Served),
                       Environment(Progress(k, Completed(NEW_JOB))), Environment(Expire(k)), Environment(Vanish(k))]
    ensures s == Execute(EMPTY, early) && Stale(s, namespace, spec)
  {
    var k, run := Key(namespace, spec.name), StartRun(namespace, spec);
    var job := Job(0, false, JobFor(spec, namespace), NEW_JOB);
    var s1 := Next(EMPTY, early[0]);
    var s2 := Next(s1, early[1]);
    SecretCreated(s1, 0, namespace, spec);
    var s3 := Next(s2, early[2]);
    JobCreated(s2, 0, namespace, spec);
    assert s3.cluster.jobs[k] == job;
    var s4 := Next(s3, early[3]);
    PhaseReadsTheVerdict(NEW_JOB);
    CompletedIsFinished(NEW_JOB);
    PhaseReadsTheVerdict(Completed(NEW_JOB));
    assert s4.cluster == s3.cluster.(jobs := map[k := job.(status := Completed(NEW_JOB))]);
    var s5 := Next(s4, early[4]);
    assert s5.cluster == s4.cluster.(jobs := map[k := job.(status := Completed(NEW_JOB), terminating := true)]);
    s := Next(s5, early[5]);
    assert s.cluster.jobs == map[];
    SixSteps(EMPTY, early, s);
  }

  lemma LatePatchLands(s: System, namespace: string, spec: JobSpec, late: seq<Step>) returns (t: System)
    requires spec.secrets != map[] && Stale(s, namespace, spec)
    requires var k, run := Key(namespace, spec.name), StartRun(namespace, spec);
             late == [Begin(1, run), Advance(1, Served), Advance(1, Served), Advance(1, Served),
                      Advance(0, Served), Environment(Collect(k))]
    ensures var k := Key(namespace, spec.name);
            t == Execute(s, late) && t.cluster.Live(k) && t.cluster.jobs[k].manifest == JobFor(spec, namespace) &&
            k !in t.cluster.secrets
  {
    var k := Key(namespace, spec.name);
    var s1 := Next(s, late[0]);
    var s2 := Next(s1, late[1]);
    SecretCreated(s1, 1, namespace, spec);
    var s3 := Next(s2, late[2]);
    JobCreated(s2, 1, namespace, spec);
    var s4 := Next(s3, late[3]);
    SecretAdopted(s3, 1, namespace, spec, 1);
    var s5 := Next(s4, late[4]);
    SecretAdopted(s4, 0, namespace, spec, 0);
    assert s5.cluster.LiveAs(k, 1) && s5.cluster.Doomed(k);
    t := Next(s5, late[5]);
    SixSteps(s, late, t);
  }

  /** A Run outlives the Job it created, and its late patch puts the Secret of the next Job
      under the vanished one: the garbage collector takes it from the live Job. There is no
      Delete in this run, and no Secret without a living owner until the late patch. */
  lemma LatePatchBreaks(namespace: string, spec: JobSpec) returns (steps: seq<Step>)
    requires spec.secrets != map[]
    ensures !Resolved(Execute(EMPTY, steps).cluster, Key(namespace, spec.name))
  {
    var k, run := Key(namespace, spec.name), StartRun(namespace, spec);
    var early := [Begin(0, run), Advance(0, Served), Advance(0, Served),
                  Environment(Progress(k, Completed(NEW_JOB))), Environment(Expire(k)), Environment(Vanish(k))];
    var late := [Begin(1, run), Advance(1, Served), Advance(1, Served), Advance(1, Served),
                 Advance(0, Served), Environment(Collect(k))];
    var s := FirstJobVanishes(namespace, spec, early);
    var t := LatePatchLands(s, namespace, spec, late);
    steps := early + late;
    ExecuteInTwo(EMPTY, early, late);
    JobNeedsItsSecrets(spec, namespace);
  }

  /** A Secret's create refused with a conflict while the name is free: Run takes it for
      done, and the Job starts without its Secret. The start is safe and the Run alone. */
  lemma FalseConflictLosesTheSecret(namespace: string, spec: JobSpec) returns (steps: seq<Step>)
    requires spec.secrets != map[]
    ensures SafeToRun(EMPTY.cluster, namespace, spec)
    ensures !Resolved(Execute(EMPTY, steps).cluster, Key(namespace, spec.name))
  {
    var k, run, conflict := Key(namespace, spec.name), StartRun(namespace, spec), Faulty(Conflict, "", false);
    steps := [Begin(0, run), Advance(0, conflict), Advance(0, Served)];
    var s1 := Next(EMPTY, steps[0]);
    var s2 := Next(s1, steps[1]);
    RepliesInform(s1.cluster, Request(run), conflict);
    assert s2.calls[0] == CreatingJob(namespace, spec) && s2.cluster == EMPTY.cluster;
    var s3 := Next(s2, steps[2]);
    JobCreated(s2, 0, namespace, spec);
    JobNeedsItsSecrets(spec, namespace);
    ThreeSteps(EMPTY, steps);
  }

  /** The Job's create so refused: Run returns nil, and there is no Job. */
  lemma FalseConflictLosesTheJob(namespace: string, spec: JobSpec) returns (steps: seq<Step>)
    requires spec.secrets != map[]
    ensures var t := Execute(EMPTY, steps);
            t.calls == map[0 := Returned(None)] && Key(namespace, spec.name) !in t.cluster.jobs
  {
    var run, conflict := StartRun(namespace, spec), Faulty(Conflict, "", false);
    steps := [Begin(0, run), Advance(0, Served), Advance(0, conflict)];
    var s1 := Next(EMPTY, steps[0]);
    var s2 := Next(s1, steps[1]);
    SecretCreated(s1, 0, namespace, spec);
    RepliesInform(s2.cluster, Request(s2.calls[0]), conflict);
    ThreeSteps(EMPTY, steps);
  }
}
