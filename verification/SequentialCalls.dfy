/** One call at a time, against every fault and every move of the cluster, complete or
    cut short by a crash: what Run, Delete and Replace guarantee from any cluster state,
    and so after any history of earlier calls. */
module SequentialCalls {
  import opened Common
  import opened JobObjects
  import opened JobStatuses
  import opened Clusters
  import opened JobProtocol
  import opened Aging
  import opened PodLogs

  /** The moves of the cluster during the turns the call takes. */
  ghost function MovesMade(c: Cluster, p: CallState, turns: seq<Turn>): seq<Move>
    decreases |turns|
  {
    if turns == [] || p.Returned? then []
    else
      var (c', p') := TakeTurn(c, p, turns[0]);
      turns[0].moves + MovesMade(c', p', turns[1..])
  }

  /** No call, complete or not, does anything to another name: what is there afterwards is
      what the cluster's own moves alone would have made of it. */
  lemma {:induction false} OtherNamesUntouched(c: Cluster, p: CallState, turns: seq<Turn>, k: Key)
    requires p.Returned? || Target(p) != k
    ensures SameAt(Drive(c, p, turns).0, ApplyAll(c, MovesMade(c, p, turns)), k)
    decreases |turns|
  {
    if turns == [] || p.Returned? {
    } else {
      var (c', p') := TakeTurn(c, p, turns[0]);
      var moved := ApplyAll(c, turns[0].moves);
      RequestsChangeOneName(moved, Request(p), turns[0].outcome, k);
      OtherNamesUntouched(c', p', turns[1..], k);
      MovesStayLocal(c', moved, MovesMade(c', p', turns[1..]), k);
      MovesInTwo(c, turns[0].moves, MovesMade(c', p', turns[1..]));
    }
  }

  // ---------------------------------------------------------------- Delete

  /** The Job at k is the one of c0, aged. */
  ghost predicate Kept(c0: Cluster, c: Cluster, k: Key) {
    k in c.jobs ==> k in c0.jobs && JobAged(c0.jobs[k], c.jobs[k])
  }

  /** What Delete has achieved by the time it is at p, having started from c0. */
  ghost predicate DeleteProgress(c0: Cluster, c: Cluster, p: CallState, k: Key) {
    match p
    case DeletingJob(_, goal) => goal.Remove? && Target(p) == k && Kept(c0, c, k)
    case DeletingSecret(_, goal) => goal.Remove? && Target(p) == k && Kept(c0, c, k) && !c.Live(k)
    case Returned(err) => Kept(c0, c, k) && (err.None? ==> !c.Live(k) && k !in c.secrets)
    case _ => false
  }

  lemma {:induction false} DeleteProgresses(c0: Cluster, c: Cluster, p: CallState, k: Key, turns: seq<Turn>)
    requires DeleteProgress(c0, c, p, k)
    ensures var (c', p') := Drive(c, p, turns); DeleteProgress(c0, c', p', k)
    decreases |turns|
  {
    if turns == [] || p.Returned? {
    } else {
      var (c', p') := TakeTurn(c, p, turns[0]);
      MovesAge(c, turns[0].moves, k);
      RepliesInform(ApplyAll(c, turns[0].moves), Request(p), turns[0].outcome);
      DeleteProgresses(c0, c', p', k, turns[1..]);
    }
  }

  /** Crash and fault recovery: from any cluster, whatever an interrupted call left there,
      a Delete that returns nil leaves no Secret of the name, and at most the Job that was
      there, terminating. */
  lemma DeleteLeavesNothing(c: Cluster, namespace: string, name: string, turns: seq<Turn>)
    requires Drive(c, StartDelete(namespace, name), turns).1 == Returned(None)
    ensures var k, d := Key(namespace, name), Drive(c, StartDelete(namespace, name), turns).0;
            && k !in d.secrets
            && (k in d.jobs ==> d.jobs[k].terminating && k in c.jobs && d.jobs[k].uid == c.jobs[k].uid)
  {
    DeleteProgresses(c, c, StartDelete(namespace, name), Key(namespace, name), turns);
  }

  /** A turn in which nothing goes wrong and nobody interferes. */
  const SMOOTH := Turn([], Served)

  /** A smooth Delete, in closed form. */
  function Deleted(c: Cluster, k: Key): Cluster {
    Cluster(if k in c.jobs then c.jobs[k := c.jobs[k].(terminating := true)] else c.jobs, c.secrets - {k}, c.nextUid)
  }

  lemma SmoothDelete(c: Cluster, namespace: string, goal: Goal)
    ensures Drive(c, DeletingJob(namespace, goal), [SMOOTH, SMOOTH]) ==
            (Deleted(c, Key(namespace, goal.Name())), AfterDelete(namespace, goal))
  {
    var k := Key(namespace, goal.Name());
    RepliesInform(c, DeleteJob(k), Served);
    var (c1, p1) := TakeTurn(c, DeletingJob(namespace, goal), SMOOTH);
    RepliesInform(c1, DeleteSecret(k), Served);
    var (c2, p2) := TakeTurn(c1, p1, SMOOTH);
    assert c2 == Deleted(c, k) by {
      if k !in c.secrets { assert c.secrets - {k} == c.secrets; }
    }
    assert [SMOOTH, SMOOTH][1..] == [SMOOTH] && [SMOOTH][1..] == [];
    assert Drive(c2, p2, []) == (c2, p2);
    assert Drive(c1, p1, [SMOOTH]) == (c2, p2);
  }

  /** A Delete that failed, or was cut short anywhere, completes when retried: from every
      cluster two smooth requests are enough, and they leave the old Job terminating, no
      Secret, and everything else as it was. */
  lemma DeleteCompletesOnRetry(c: Cluster, namespace: string, name: string)
    ensures var k, (d, p) := Key(namespace, name), Drive(c, StartDelete(namespace, name), [SMOOTH, SMOOTH]);
            && p == Returned(None)
            && k !in d.secrets && d.secrets == c.secrets - {k}
            && d.jobs.Keys == c.jobs.Keys && d.jobs - {k} == c.jobs - {k}
            && (k in c.jobs ==> d.jobs[k] == c.jobs[k].(terminating := true))
            && d.nextUid == c.nextUid
  {
    SmoothDelete(c, namespace, Remove(name));
  }

  // ---------------------------------------------------------------- Run

  /** A state of Run. */
  predicate RunsFor(p: CallState, namespace: string, spec: JobSpec) {
    match p
    case CreatingSecret(n, s) => (n, s) == (namespace, spec) && spec.secrets != map[]
    case CreatingJob(n, s) => (n, s) == (namespace, spec)
    case Adopting(n, s, _) => (n, s) == (namespace, spec) && spec.secrets != map[]
    case Returned(_) => true
    case _ => false
  }

  /** The Job that a call begun at c creates. */
  ghost function NewJob(c: Cluster, namespace: string, spec: JobSpec): Job {
    Job(c.nextUid, false, JobFor(spec, namespace), NEW_JOB)
  }

  /** It is there, touched by the cluster alone. */
  ghost predicate FreshJob(c0: Cluster, c: Cluster, namespace: string, spec: JobSpec) {
    var k := Key(namespace, spec.name);
    k in c.jobs && JobAged(NewJob(c0, namespace, spec), c.jobs[k])
  }

  /** What Run has added by the time it is at p, while the cluster moves. */
  ghost predicate RunAdditions(c0: Cluster, c: Cluster, p: CallState, namespace: string, spec: JobSpec) {
    var k := Key(namespace, spec.name);
    && RunsFor(p, namespace, spec)
    && (k in c.jobs ==> Kept(c0, c, k) || FreshJob(c0, c, namespace, spec))
    && (p.CreatingSecret? || p.CreatingJob? ==> c.nextUid == c0.nextUid && Kept(c0, c, k))
    && (k in c.secrets ==> c.secrets[k].manifest == BuildJobSecret(spec, namespace) ||
                           (k in c0.secrets && c.secrets[k].manifest == c0.secrets[k].manifest))
    && (k in c0.secrets && c0.secrets[k].owner.None? ==> k in c.secrets && c.secrets[k].manifest == c0.secrets[k].manifest)
    && (k in c0.secrets && c0.secrets[k].owner.None? && !p.Returned? ==> c.secrets[k].owner.None?)
  }

  lemma CreateSecretKeepsRunAdditions(c0: Cluster, c: Cluster, p: CallState, namespace: string, spec: JobSpec, outcome: Outcome)
    requires RunAdditions(c0, c, p, namespace, spec) && p.CreatingSecret?
    ensures var (d, reply) := Serve(c, Request(p), outcome); RunAdditions(c0, d, Resume(p, reply), namespace, spec)
  {
  }

  lemma CreateJobKeepsRunAdditions(c0: Cluster, c: Cluster, p: CallState, namespace: string, spec: JobSpec, outcome: Outcome)
    requires RunAdditions(c0, c, p, namespace, spec) && p.CreatingJob?
    ensures var (d, reply) := Serve(c, Request(p), outcome); RunAdditions(c0, d, Resume(p, reply), namespace, spec)
  {
  }

  lemma PatchKeepsRunAdditions(c0: Cluster, c: Cluster, p: CallState, namespace: string, spec: JobSpec, outcome: Outcome)
    requires RunAdditions(c0, c, p, namespace, spec) && p.Adopting?
    ensures var (d, reply) := Serve(c, Request(p), outcome); RunAdditions(c0, d, Resume(p, reply), namespace, spec)
  {
  }

  lemma {:induction false} RunAdds(c0: Cluster, c: Cluster, p: CallState, namespace: string, spec: JobSpec, turns: seq<Turn>)
    requires RunAdditions(c0, c, p, namespace, spec)
    ensures var (d, q) := Drive(c, p, turns); RunAdditions(c0, d, q, namespace, spec)
    decreases |turns|
  {
    if turns == [] || p.Returned? {
    } else {
      var moved := ApplyAll(c, turns[0].moves);
      MovesAge(c, turns[0].moves, Key(namespace, spec.name));
      match p {
        case CreatingSecret(_, _) => CreateSecretKeepsRunAdditions(c0, moved, p, namespace, spec, turns[0].outcome);
        case CreatingJob(_, _) => CreateJobKeepsRunAdditions(c0, moved, p, namespace, spec, turns[0].outcome);
        case Adopting(_, _, _) => PatchKeepsRunAdditions(c0, moved, p, namespace, spec, turns[0].outcome);
      }
      var (c', p') := TakeTurn(c, p, turns[0]);
      RunAdds(c0, c', p', namespace, spec, turns[1..]);
    }
  }

  /** Run only adds, against any faults and any moves and wherever it stops: the Job is the
      one from before, aged by the cluster alone, or a fresh one of this spec; an unowned
      Secret stays with its data, and any Secret has its old data or this spec's. */
  lemma RunOnlyAdds(c: Cluster, namespace: string, spec: JobSpec, turns: seq<Turn>)
    ensures var k, d := Key(namespace, spec.name), Drive(c, StartRun(namespace, spec), turns).0;
            && (k in d.jobs ==> (k in c.jobs && JobAged(c.jobs[k], d.jobs[k])) || FreshJob(c, d, namespace, spec))
            && (k in d.secrets ==> d.secrets[k].manifest == BuildJobSecret(spec, namespace) ||
                                   (k in c.secrets && d.secrets[k].manifest == c.secrets[k].manifest))
            && (k in c.secrets && c.secrets[k].owner.None? ==> k in d.secrets && d.secrets[k].manifest == c.secrets[k].manifest)
  {
    RunAdds(c, c, StartRun(namespace, spec), namespace, spec, turns);
  }

  /** What a request of Run does next to a Job or a Secret already there, and where there is no Job. */
  lemma RunRequests(c: Cluster, p: CallState, namespace: string, spec: JobSpec, outcome: Outcome)
    requires RunsFor(p, namespace, spec) && !p.Returned?
    ensures var k, (d, reply) := Key(namespace, spec.name), Serve(c, Request(p), outcome);
            var q := Resume(p, reply);
            && RunsFor(q, namespace, spec)
            && (k in c.jobs ==> d.jobs == c.jobs && d.nextUid == c.nextUid && (q.Adopting? ==> p.Adopting?))
            && (k in c.secrets ==>
                  k in d.secrets && d.secrets[k].manifest == c.secrets[k].manifest &&
                  (!p.Adopting? ==> d.secrets[k] == c.secrets[k]))
            && (k in d.jobs && k !in c.jobs ==> d.jobs[k] == NewJob(c, namespace, spec))
            && (k !in d.jobs ==> d.nextUid == c.nextUid)
  {
  }

  /** A Job that Run creates can be explained when it fails: no attempt is restarted in place,
      so each leaves a pod of its own, and the container is the one whose logs are read. */
  lemma RunsJobsThatExplainThemselves(c: Cluster, namespace: string, spec: JobSpec, turns: seq<Turn>, pod: Pod)
    requires var k, d := Key(namespace, spec.name), Drive(c, StartRun(namespace, spec), turns).0;
             k in d.jobs && k !in c.jobs
    ensures var job := Drive(c, StartRun(namespace, spec), turns).0.jobs[Key(namespace, spec.name)].manifest;
            job.restartPolicy == "Never" && job.container.name == TailOf(namespace, pod).container == "job"
  {
    RunOnlyAdds(c, namespace, spec, turns);
    JobIsLossless(spec, namespace);
  }

  /** Next to a Job that does not vanish, Run does nothing to any Job and hands out no UID. */
  lemma {:induction false} RunLeavesJobs(c: Cluster, p: CallState, namespace: string, spec: JobSpec, turns: seq<Turn>)
    requires RunsFor(p, namespace, spec) && Key(namespace, spec.name) in c.jobs
    requires Vanish(Key(namespace, spec.name)) !in MovesMade(c, p, turns)
    ensures var d := Drive(c, p, turns).0;
            d.jobs == ApplyAll(c, MovesMade(c, p, turns)).jobs && d.nextUid == c.nextUid
    decreases |turns|
  {
    if turns == [] || p.Returned? {
    } else {
      RunRequests(ApplyAll(c, turns[0].moves), p, namespace, spec, turns[0].outcome);
      var (c', p') := TakeTurn(c, p, turns[0]);
      var moved, rest := ApplyAll(c, turns[0].moves), MovesMade(c', p', turns[1..]);
      MovesTake(c, turns[0].moves, Key(namespace, spec.name));
      MovesAge(c, turns[0].moves, Key(namespace, spec.name));
      RunLeavesJobs(c', p', namespace, spec, turns[1..]);
      JobsMoveAlone(c', moved, rest);
      MovesInTwo(c, turns[0].moves, rest);
    }
  }

  /** Run leaves the data of a Secret that is not collected, and next to a Job that does not
      vanish all of it. */
  lemma {:induction false} RunLeavesSecret(c: Cluster, p: CallState, namespace: string, spec: JobSpec, turns: seq<Turn>)
    requires RunsFor(p, namespace, spec) && Key(namespace, spec.name) in c.secrets
    requires Collect(Key(namespace, spec.name)) !in MovesMade(c, p, turns)
    ensures var k, d := Key(namespace, spec.name), Drive(c, p, turns).0;
            && k in d.secrets && d.secrets[k].manifest == c.secrets[k].manifest
            && (!p.Adopting? && k in c.jobs && Vanish(k) !in MovesMade(c, p, turns) ==> d.secrets[k] == c.secrets[k])
    decreases |turns|
  {
    if turns == [] || p.Returned? {
    } else {
      RunRequests(ApplyAll(c, turns[0].moves), p, namespace, spec, turns[0].outcome);
      var (c', p') := TakeTurn(c, p, turns[0]);
      MovesTake(c, turns[0].moves, Key(namespace, spec.name));
      MovesAge(c, turns[0].moves, Key(namespace, spec.name));
      RunLeavesSecret(c', p', namespace, spec, turns[1..]);
    }
  }

  /** A Run undisturbed by moves leaves a fresh Job exactly as it was created. */
  lemma {:induction false} QuietRunsJob(c: Cluster, p: CallState, namespace: string, spec: JobSpec, turns: seq<Turn>)
    requires RunsFor(p, namespace, spec) && MovesMade(c, p, turns) == []
    ensures var k, d := Key(namespace, spec.name), Drive(c, p, turns).0;
            k in d.jobs ==> d.jobs[k] == if k in c.jobs then c.jobs[k] else NewJob(c, namespace, spec)
    decreases |turns|
  {
    if turns == [] || p.Returned? {
    } else {
      RunRequests(ApplyAll(c, turns[0].moves), p, namespace, spec, turns[0].outcome);
      var (c', p') := TakeTurn(c, p, turns[0]);
      assert turns[0].moves == [] && MovesMade(c', p', turns[1..]) == [];
      QuietRunsJob(c', p', namespace, spec, turns[1..]);
    }
  }

  // ---------------------------------------------------------------- What nil means

  /** A state of Run or Replace. */
  predicate Dispatching(p: CallState) {
    match p
    case CreatingSecret(_, spec) => spec.secrets != map[]
    case CreatingJob(_, _) => true
    case Adopting(_, spec, _) => spec.secrets != map[]
    case DeletingJob(_, goal) => goal.Redispatch?
    case DeletingSecret(_, goal) => goal.Redispatch?
    case Returned(_) => false
  }

  function SpecOf(p: CallState): JobSpec
    requires Dispatching(p)
  {
    if p.DeletingJob? || p.DeletingSecret? then p.goal.spec else p.spec
  }

  /** The Job does not vanish before the call that created it has patched the Secret. */
  ghost predicate PatchesInTime(c: Cluster, p: CallState, turns: seq<Turn>)
    decreases |turns|
  {
    turns == [] || p.Returned? ||
    ((p.Adopting? ==> Vanish(Target(p)) !in turns[0].moves) &&
     var (c', p') := TakeTurn(c, p, turns[0]); PatchesInTime(c', p', turns[1..]))
  }

  predicate Unowned(c: Cluster, k: Key) {
    k in c.secrets ==> c.secrets[k].owner.None?
  }

  /** How a dispatch that is going to return nil goes on after a request. */
  lemma DispatchGoesOn(c: Cluster, p: CallState, outcome: Outcome)
    requires Dispatching(p)
    ensures var (d, reply) := Serve(c, Request(p), outcome);
            var q := Resume(p, reply);
            && (!q.Returned? ==> Dispatching(q) && Target(q) == Target(p) && SpecOf(q) == SpecOf(p))
            && (q.Adopting? ==> p.CreatingJob?)
            && (q.CreatingJob? && SpecOf(p).secrets != map[] ==> p.CreatingSecret?)
            && (q == Returned(None) ==> p.CreatingJob? || p.Adopting?)
  {
    RepliesInform(c, Request(p), outcome);
  }

  lemma JobOfDispatch(c: Cluster, p: CallState, outcome: Outcome)
    requires Dispatching(p)
    ensures var (d, reply) := Serve(c, Request(p), outcome);
            var q := Resume(p, reply);
            && (p.Adopting? ==> d.jobs == c.jobs)
            && (p.CreatingJob? && !(q.Returned? && q.err.Some?) ==>
                  (Target(p) in d.jobs <==> !FalseConflict(c, Request(p), outcome)))
            && (q.Adopting? ==> !FalseConflict(c, Request(p), outcome))
  {
    RepliesInform(c, Request(p), outcome);
  }

  lemma SecretOfDispatch(c: Cluster, p: CallState, outcome: Outcome)
    requires Dispatching(p)
    ensures var (d, reply) := Serve(c, Request(p), outcome);
            var q, k := Resume(p, reply), Target(p);
            && (p.CreatingJob? || p.Adopting? ==> (k in d.secrets <==> k in c.secrets))
            && (p.CreatingSecret? && !q.Returned? ==> (k in d.secrets <==> !FalseConflict(c, Request(p), outcome)))
            && (p.DeletingSecret? && !q.Returned? ==> k !in d.secrets)
            && (Unowned(c, k) && !p.Adopting? ==> Unowned(d, k))
  {
    RepliesInform(c, Request(p), outcome);
  }

  /** After nil the Job is there exactly if its create was not refused by a false conflict. */
  lemma {:induction false} NilHasJobIff(c: Cluster, p: CallState, turns: seq<Turn>)
    requires Dispatching(p) && PatchesInTime(c, p, turns) && Drive(c, p, turns).1 == Returned(None)
    ensures Target(p) in Drive(c, p, turns).0.jobs <==>
            if p.Adopting? then Target(p) in c.jobs else !Misreads(c, p, turns).job
    decreases |turns|
  {
    var (c', p') := TakeTurn(c, p, turns[0]);
    MovesTake(c, turns[0].moves, Target(p));
    MovesAge(c, turns[0].moves, Target(p));
    DispatchGoesOn(ApplyAll(c, turns[0].moves), p, turns[0].outcome);
    JobOfDispatch(ApplyAll(c, turns[0].moves), p, turns[0].outcome);
    MisreadsLieAhead(c', p', turns[1..]);
    if !p'.Returned? {
      NilHasJobIff(c', p', turns[1..]);
    }
  }

  /** After nil the Secret is there exactly if its create was not refused by a false conflict. */
  lemma {:induction false} NilHasSecretIff(c: Cluster, p: CallState, turns: seq<Turn>)
    requires Dispatching(p) && SpecOf(p).secrets != map[] && Drive(c, p, turns).1 == Returned(None)
    requires p.DeletingJob? || p.DeletingSecret? || Unowned(c, Target(p)) || Collect(Target(p)) !in MovesMade(c, p, turns)
    ensures Target(p) in Drive(c, p, turns).0.secrets <==>
            if p.CreatingJob? || p.Adopting? then Target(p) in c.secrets else !Misreads(c, p, turns).secret
    decreases |turns|
  {
    var (c', p') := TakeTurn(c, p, turns[0]);
    MovesTake(c, turns[0].moves, Target(p));
    MovesAge(c, turns[0].moves, Target(p));
    DispatchGoesOn(ApplyAll(c, turns[0].moves), p, turns[0].outcome);
    SecretOfDispatch(ApplyAll(c, turns[0].moves), p, turns[0].outcome);
    MisreadsLieAhead(c', p', turns[1..]);
    if !p'.Returned? {
      NilHasSecretIff(c', p', turns[1..]);
    }
  }

  /** What a nil Run is there to promise. */
  predicate Delivered(c: Cluster, namespace: string, spec: JobSpec) {
    var k := Key(namespace, spec.name);
    k in c.jobs && (spec.secrets != map[] ==> k in c.secrets)
  }

  /** Run preserves, whatever faults it meets, whatever moves and wherever it stops: a Job
      already there is left to the cluster alone, with all others and the UID counter; a
      Secret already there keeps its data and, next to that Job, its owner; what is new is
      of this spec. A nil Run leaves a Job, and a Secret if the spec has secrets, exactly
      if none of its creates was refused with a conflict while the name was free. */
  lemma RunPreserves(c: Cluster, namespace: string, spec: JobSpec, turns: seq<Turn>)
    ensures var k, p := Key(namespace, spec.name), StartRun(namespace, spec);
            var ((d, q), moves) := (Drive(c, p, turns), MovesMade(c, p, turns));
            && (k in c.jobs && Vanish(k) !in moves ==> d.jobs == ApplyAll(c, moves).jobs && d.nextUid == c.nextUid)
            && (k in c.secrets && Collect(k) !in moves ==>
                  k in d.secrets && d.secrets[k].manifest == c.secrets[k].manifest &&
                  (k in c.jobs && Vanish(k) !in moves ==> d.secrets[k] == c.secrets[k]))
            && (k !in c.jobs && k in d.jobs ==>
                  FreshJob(c, d, namespace, spec) && (moves == [] ==> d.jobs[k] == NewJob(c, namespace, spec)))
            && (k !in c.secrets && k in d.secrets ==> d.secrets[k].manifest == BuildJobSecret(spec, namespace))
            && (q == Returned(None) && PatchesInTime(c, p, turns) && (Unowned(c, k) || Collect(k) !in moves) ==>
                  (Delivered(d, namespace, spec) <==> Misreads(c, p, turns) == Misread(false, false)))
  {
    var k, p := Key(namespace, spec.name), StartRun(namespace, spec);
    RunOnlyAdds(c, namespace, spec, turns);
    var moves := MovesMade(c, p, turns);
    if k in c.jobs && Vanish(k) !in moves { RunLeavesJobs(c, p, namespace, spec, turns); }
    if k in c.secrets && Collect(k) !in moves { RunLeavesSecret(c, p, namespace, spec, turns); }
    if moves == [] { QuietRunsJob(c, p, namespace, spec, turns); }
    if Drive(c, p, turns).1 == Returned(None) && PatchesInTime(c, p, turns) && (Unowned(c, k) || Collect(k) !in moves) {
      NilHasJobIff(c, p, turns);
      if spec.secrets == map[] {
        MisreadsLieAhead(c, p, turns);
      } else {
        NilHasSecretIff(c, p, turns);
      }
    }
  }

  // ---------------------------------------------------------------- Smooth Runs

  /** A smooth Run, in closed form. */
  ghost function Dispatched(c: Cluster, namespace: string, spec: JobSpec): Cluster {
    var k := Key(namespace, spec.name);
    var isNew := k !in c.jobs;
    var secrets := if spec.secrets == map[] || k in c.secrets then c.secrets
                   else c.secrets[k := Secret(BuildJobSecret(spec, namespace), None)];
    Cluster(
      if isNew then c.jobs[k := NewJob(c, namespace, spec)] else c.jobs,
      if isNew && spec.secrets != map[] then secrets[k := secrets[k].(owner := Some(c.nextUid))] else secrets,
      if isNew then c.nextUid + 1 else c.nextUid)
  }

  lemma SmoothCreateSecret(c: Cluster, namespace: string, spec: JobSpec) returns (c1: Cluster)
    requires spec.secrets != map[]
    ensures TakeTurn(c, CreatingSecret(namespace, spec), SMOOTH) == (c1, CreatingJob(namespace, spec))
    ensures Key(namespace, spec.name) in c1.secrets
    ensures Dispatched(c1, namespace, spec) == Dispatched(c, namespace, spec)
  {
    RepliesInform(c, Request(CreatingSecret(namespace, spec)), Served);
    c1 := TakeTurn(c, CreatingSecret(namespace, spec), SMOOTH).0;
  }

  /** The second half of a smooth Run, from the Create on. */
  lemma SmoothCreate(c: Cluster, namespace: string, spec: JobSpec, more: seq<Turn>)
    requires spec.secrets != map[] ==> Key(namespace, spec.name) in c.secrets
    requires more == [SMOOTH] || more == [SMOOTH, SMOOTH]
    ensures Drive(c, CreatingJob(namespace, spec), [SMOOTH] + more) == (Dispatched(c, namespace, spec), Returned(None))
  {
    RepliesInform(c, Request(CreatingJob(namespace, spec)), Served);
    var (c1, p1) := TakeTurn(c, CreatingJob(namespace, spec), SMOOTH);
    assert ([SMOOTH] + more)[1..] == more;
    if p1.Returned? {
      assert Drive(c1, p1, more) == (c1, p1);
    } else {
      var (c2, p2) := TakeTurn(c1, p1, SMOOTH);
      assert Drive(c2, p2, more[1..]) == (c2, p2);
    }
  }

  lemma SmoothRun(c: Cluster, namespace: string, spec: JobSpec)
    ensures Drive(c, StartRun(namespace, spec), [SMOOTH, SMOOTH, SMOOTH]) == (Dispatched(c, namespace, spec), Returned(None))
  {
    assert [SMOOTH, SMOOTH, SMOOTH] == [SMOOTH] + [SMOOTH, SMOOTH];
    if spec.secrets == map[] {
      SmoothCreate(c, namespace, spec, [SMOOTH, SMOOTH]);
    } else {
      var c1 := SmoothCreateSecret(c, namespace, spec);
      SmoothCreate(c1, namespace, spec, [SMOOTH]);
      assert [SMOOTH, SMOOTH, SMOOTH][1..] == [SMOOTH] + [SMOOTH];
    }
  }

  /** n smooth calls of Run in a row. */
  ghost function Dispatches(c: Cluster, namespace: string, spec: JobSpec, n: nat): Cluster {
    if n == 0 then c
    else Drive(Dispatches(c, namespace, spec, n - 1), StartRun(namespace, spec), [SMOOTH, SMOOTH, SMOOTH]).0
  }

  /** Idempotence: from every cluster state, complete or partial, dispatching any number
      of times leaves what dispatching once does. */
  lemma {:induction false} DispatchIsIdempotent(c: Cluster, namespace: string, spec: JobSpec, n: nat)
    ensures Dispatches(c, namespace, spec, n + 1) == Drive(c, StartRun(namespace, spec), [SMOOTH, SMOOTH, SMOOTH]).0
  {
    SmoothRun(c, namespace, spec);
    if n == 0 {
    } else {
      DispatchIsIdempotent(c, namespace, spec, n - 1);
      SmoothRun(Dispatches(c, namespace, spec, n), namespace, spec);
    }
  }

  // ---------------------------------------------------------------- Replace

  /** The Job at k is one from before c0, kept at most as a terminating one. */
  ghost predicate OldJobGoing(c0: Cluster, c: Cluster, k: Key) {
    k in c.jobs ==> c.jobs[k].terminating && k in c0.jobs && c.jobs[k].uid == c0.jobs[k].uid
  }

  /** A Secret that is there is this spec's, and unowned. */
  ghost predicate NoOtherSecret(c: Cluster, namespace: string, spec: JobSpec) {
    var k := Key(namespace, spec.name);
    k in c.secrets ==> spec.secrets != map[] && c.secrets[k] == Secret(BuildJobSecret(spec, namespace), None)
  }

  /** What a Replace that returned nil leaves behind, even if the cluster moves all the while. */
  ghost predicate ReplaceOutcome(c0: Cluster, c: Cluster, namespace: string, spec: JobSpec) {
    var k := Key(namespace, spec.name);
    && (k in c.jobs ==> FreshJob(c0, c, namespace, spec) || OldJobGoing(c0, c, k))
    && (k in c.secrets ==> spec.secrets != map[] && c.secrets[k].manifest == BuildJobSecret(spec, namespace))
    && (k in c.secrets && c.secrets[k].owner.Some? ==>
          c.secrets[k].owner.value == c0.nextUid && (k in c.jobs ==> c.jobs[k].uid == c0.nextUid))
  }

  /** What Replace has achieved by the time it is at p, having started from c0. */
  ghost predicate ReplaceProgress(c0: Cluster, c: Cluster, p: CallState, namespace: string, spec: JobSpec) {
    var k := Key(namespace, spec.name);
    && (!p.Adopting? && !p.Returned? ==> c.nextUid == c0.nextUid)
    && match p
       case DeletingJob(n, goal) => (n, goal) == (namespace, Redispatch(spec)) && Aged(c0, c, k)
       case DeletingSecret(n, goal) => (n, goal) == (namespace, Redispatch(spec)) && OldJobGoing(c0, c, k)
       case CreatingSecret(n, s) =>
         (n, s) == (namespace, spec) && OldJobGoing(c0, c, k) && k !in c.secrets && spec.secrets != map[]
       case CreatingJob(n, s) =>
         (n, s) == (namespace, spec) && OldJobGoing(c0, c, k) && NoOtherSecret(c, namespace, spec)
       case Adopting(n, s, uid) =>
         && (n, s) == (namespace, spec) && spec.secrets != map[] && uid == c0.nextUid
         && (k in c.jobs ==> FreshJob(c0, c, namespace, spec))
         && NoOtherSecret(c, namespace, spec)
       case Returned(err) => err.None? ==> ReplaceOutcome(c0, c, namespace, spec)
  }

  lemma MovesKeepReplaceProgress(c0: Cluster, c: Cluster, p: CallState, namespace: string, spec: JobSpec, moves: seq<Move>)
    requires ReplaceProgress(c0, c, p, namespace, spec) && !p.Returned?
    ensures ReplaceProgress(c0, ApplyAll(c, moves), p, namespace, spec)
  {
    MovesAge(c, moves, Key(namespace, spec.name));
  }

  lemma DeletesKeepReplaceProgress(c0: Cluster, c: Cluster, p: CallState, namespace: string, spec: JobSpec, outcome: Outcome)
    requires ReplaceProgress(c0, c, p, namespace, spec) && (p.DeletingJob? || p.DeletingSecret?)
    ensures var (d, reply) := Serve(c, Request(p), outcome); ReplaceProgress(c0, d, Resume(p, reply), namespace, spec)
  {
    RepliesInform(c, Request(p), outcome);
  }

  lemma CreateSecretKeepsReplaceProgress(c0: Cluster, c: Cluster, p: CallState, namespace: string, spec: JobSpec, outcome: Outcome)
    requires ReplaceProgress(c0, c, p, namespace, spec) && p.CreatingSecret?
    ensures var (d, reply) := Serve(c, Request(p), outcome); ReplaceProgress(c0, d, Resume(p, reply), namespace, spec)
  {
  }

  lemma CreateJobKeepsReplaceProgress(c0: Cluster, c: Cluster, p: CallState, namespace: string, spec: JobSpec, outcome: Outcome)
    requires ReplaceProgress(c0, c, p, namespace, spec) && p.CreatingJob?
    ensures var (d, reply) := Serve(c, Request(p), outcome); ReplaceProgress(c0, d, Resume(p, reply), namespace, spec)
  {
    RepliesInform(c, Request(p), outcome);
  }

  lemma PatchKeepsReplaceProgress(c0: Cluster, c: Cluster, p: CallState, namespace: string, spec: JobSpec, outcome: Outcome)
    requires ReplaceProgress(c0, c, p, namespace, spec) && p.Adopting?
    ensures var (d, reply) := Serve(c, Request(p), outcome); ReplaceProgress(c0, d, Resume(p, reply), namespace, spec)
  {
  }

  lemma RequestKeepsReplaceProgress(c0: Cluster, c: Cluster, p: CallState, namespace: string, spec: JobSpec, outcome: Outcome)
    requires ReplaceProgress(c0, c, p, namespace, spec) && !p.Returned?
    ensures var (d, reply) := Serve(c, Request(p), outcome); ReplaceProgress(c0, d, Resume(p, reply), namespace, spec)
  {
    match p
    case DeletingJob(_, _) => DeletesKeepReplaceProgress(c0, c, p, namespace, spec, outcome);
    case DeletingSecret(_, _) => DeletesKeepReplaceProgress(c0, c, p, namespace, spec, outcome);
    case CreatingSecret(_, _) => CreateSecretKeepsReplaceProgress(c0, c, p, namespace, spec, outcome);
    case CreatingJob(_, _) => CreateJobKeepsReplaceProgress(c0, c, p, namespace, spec, outcome);
    case Adopting(_, _, _) => PatchKeepsReplaceProgress(c0, c, p, namespace, spec, outcome);
  }

  lemma {:induction false} ReplaceProgresses(c0: Cluster, c: Cluster, p: CallState, namespace: string, spec: JobSpec, turns: seq<Turn>)
    requires ReplaceProgress(c0, c, p, namespace, spec)
    ensures var (d, q) := Drive(c, p, turns); ReplaceProgress(c0, d, q, namespace, spec)
    decreases |turns|
  {
    if turns == [] || p.Returned? {
    } else {
      var moved := ApplyAll(c, turns[0].moves);
      MovesKeepReplaceProgress(c0, c, p, namespace, spec, turns[0].moves);
      RequestKeepsReplaceProgress(c0, moved, p, namespace, spec, turns[0].outcome);
      var (c', p') := TakeTurn(c, p, turns[0]);
      ReplaceProgresses(c0, c', p', namespace, spec, turns[1..]);
    }
  }

  /** Replace refreshes: after a nil Replace, against any faults and any moves of the
      cluster, the Job is a fresh one of this spec, the same old one still terminating, or
      gone; a Secret holds this call's secrets, and its owner can only be the Job this call
      created. If the spec has secrets, the Secret is there exactly if its create was not
      refused with a conflict while the name was free, and so is a Job, unless it vanished
      before the patch. */
  lemma ReplaceRefreshes(c: Cluster, namespace: string, spec: JobSpec, turns: seq<Turn>)
    requires Drive(c, StartReplace(namespace, spec), turns).1 == Returned(None)
    ensures var k, p := Key(namespace, spec.name), StartReplace(namespace, spec);
            var d := Drive(c, p, turns).0;
            && ReplaceOutcome(c, d, namespace, spec)
            && (spec.secrets != map[] ==> (k in d.secrets <==> !Misreads(c, p, turns).secret))
            && (PatchesInTime(c, p, turns) ==> (k in d.jobs <==> !Misreads(c, p, turns).job))
  {
    var p := StartReplace(namespace, spec);
    ReplaceProgresses(c, c, p, namespace, spec, turns);
    if spec.secrets != map[] { NilHasSecretIff(c, p, turns); }
    if PatchesInTime(c, p, turns) { NilHasJobIff(c, p, turns); }
  }
}
