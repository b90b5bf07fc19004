/** "The pod never starts without its credentials": what that takes for a Run on its own. */
module SecretBeforeJob {
  import opened Common
  import opened JobObjects
  import opened JobStatuses
  import opened Kubernetes
  import opened Clusters
  import opened JobProtocol
  import opened Aging
  import opened SequentialCalls

  /** The keys of its own Secret a Job's pods need to start. */
  function Needs(job: JobManifest, name: string): set<string> {
    set r | r in References(job) && r.name == name :: r.key
  }

  lemma JobNeedsItsSecrets(spec: JobSpec, namespace: string)
    ensures Needs(JobFor(spec, namespace), spec.name) == spec.secrets.Keys
  {
    ReferencesResolve(spec, namespace);
    forall key | key in spec.secrets ensures key in Needs(JobFor(spec, namespace), spec.name) {
      assert SecretKeyRef(spec.name, key) in References(JobFor(spec, namespace));
    }
  }

  predicate Holds(c: Cluster, k: Key, keys: set<string>) {
    k in c.secrets && keys <= c.secrets[k].manifest.data.Keys
  }

  /** The promise: a live Job's Secret exists and has every key the Job refers to. */
  predicate Resolved(c: Cluster, k: Key) {
    c.Live(k) && Needs(c.jobs[k].manifest, k.name) != {} ==> Holds(c, k, Needs(c.jobs[k].manifest, k.name))
  }

  /** Resolved, and the garbage collector cannot undo it while the Job lives. */
  predicate Secured(c: Cluster, k: Key) {
    c.Live(k) && Needs(c.jobs[k].manifest, k.name) != {} ==>
      Holds(c, k, Needs(c.jobs[k].manifest, k.name)) &&
      (c.secrets[k].owner.None? || c.secrets[k].owner == Some(c.jobs[k].uid))
  }

  /** What a caller can look at before dispatching: a Job already there is secured, and a
      Secret already there has no owner and all of this spec's keys. */
  predicate SafeToRun(c: Cluster, namespace: string, spec: JobSpec) {
    var k := Key(namespace, spec.name);
    && Secured(c, k)
    && (spec.secrets != map[] && k in c.secrets ==>
          c.secrets[k].owner.None? && Holds(c, k, spec.secrets.Keys))
  }

  /** Whatever the cluster does from here, the promise holds. */
  ghost predicate StaysResolved(c: Cluster, k: Key) {
    forall after :: Resolved(ApplyAll(c, after), k)
  }

  /** The promise holds throughout: however the call p alone fares from c, wherever it stops,
      and whatever the cluster does during and after it. */
  ghost predicate AlwaysResolved(c: Cluster, p: CallState)
    requires !p.Returned?
  {
    forall turns :: StaysResolved(Drive(c, p, turns).0, Target(p))
  }

  /** The same, but for executions in which the Secret's create is refused with a conflict
      while the name is free. */
  ghost predicate ResolvedUnlessMisread(c: Cluster, p: CallState)
    requires !p.Returned?
  {
    forall turns :: !Misreads(c, p, turns).secret ==> StaysResolved(Drive(c, p, turns).0, Target(p))
  }

  /** What keeps the promise at each request of a call. */
  ghost predicate SafeAt(c: Cluster, p: CallState, k: Key) {
    && Secured(c, k)
    && match p
       case CreatingSecret(_, spec) =>
         && Target(p) == k && spec.secrets != map[]
         && (k in c.secrets ==> c.secrets[k].owner.None? && Holds(c, k, spec.secrets.Keys))
       case CreatingJob(_, spec) =>
         Target(p) == k && (spec.secrets != map[] ==> Holds(c, k, spec.secrets.Keys) && c.secrets[k].owner.None?)
       case Adopting(_, spec, uid) =>
         && Target(p) == k && k in c.secrets && c.secrets[k].owner.None?
         && (k in c.jobs ==> c.jobs[k].uid == uid)
       case DeletingJob(_, _) => Target(p) == k
       case DeletingSecret(_, _) => Target(p) == k && !c.Live(k)
       case Returned(_) => true
  }

  lemma MovesKeepSafe(c: Cluster, p: CallState, k: Key, moves: seq<Move>)
    requires SafeAt(c, p, k)
    ensures SafeAt(ApplyAll(c, moves), p, k)
  {
    MovesAge(c, moves, k);
  }

  lemma CreateKeepsSafe(c: Cluster, p: CallState, k: Key, outcome: Outcome)
    requires SafeAt(c, p, k) && p.CreatingJob?
    ensures var (d, reply) := Serve(c, Request(p), outcome); SafeAt(d, Resume(p, reply), k)
  {
    RepliesInform(c, Request(p), outcome);
    JobNeedsItsSecrets(p.spec, p.namespace);
  }

  lemma RequestKeepsSafe(c: Cluster, p: CallState, k: Key, outcome: Outcome)
    requires SafeAt(c, p, k) && !p.Returned? && !(p.CreatingSecret? && FalseConflict(c, Request(p), outcome))
    ensures var (d, reply) := Serve(c, Request(p), outcome); SafeAt(d, Resume(p, reply), k)
  {
    if p.CreatingJob? {
      CreateKeepsSafe(c, p, k, outcome);
    } else {
      RepliesInform(c, Request(p), outcome);
    }
  }

  // ---------------------------------------------------------------- Execution by execution

  /** The call went on from a create refused with a false conflict: there is no Secret, no
      live Job from before needs one, and one the call creates does. */
  ghost predicate Unbacked(c: Cluster, p: CallState, k: Key, spec: JobSpec, since: Uid) {
    && k !in c.secrets && since <= c.nextUid
    && (c.Live(k) ==> Needs(c.jobs[k].manifest, k.name) == if c.jobs[k].uid < since then {} else spec.secrets.Keys)
    && match p
       case CreatingJob(_, s) => Target(p) == k && s == spec
       case Adopting(_, _, _) => Target(p) == k
       case Returned(_) => true
       case _ => false
  }

  lemma RequestKeepsUnbacked(c: Cluster, p: CallState, k: Key, spec: JobSpec, since: Uid, outcome: Outcome)
    requires Unbacked(c, p, k, spec, since) && !p.Returned?
    ensures var (d, reply) := Serve(c, Request(p), outcome); Unbacked(d, Resume(p, reply), k, spec, since)
  {
    if p.CreatingJob? {
      JobNeedsItsSecrets(p.spec, p.namespace);
    }
  }

  lemma {:induction false} CallStaysUnbacked(c: Cluster, p: CallState, k: Key, spec: JobSpec, since: Uid, turns: seq<Turn>)
    requires Unbacked(c, p, k, spec, since)
    ensures var (d, q) := Drive(c, p, turns); Unbacked(d, q, k, spec, since)
    decreases |turns|
  {
    if turns == [] || p.Returned? {
    } else {
      MovesAge(c, turns[0].moves, k);
      RequestKeepsUnbacked(ApplyAll(c, turns[0].moves), p, k, spec, since, turns[0].outcome);
      var (c', p') := TakeTurn(c, p, turns[0]);
      CallStaysUnbacked(c', p', k, spec, since, turns[1..]);
    }
  }

  /** A live Job with a UID not yet handed out at `since`. */
  predicate NewJobLives(c: Cluster, k: Key, since: Uid) {
    c.Live(k) && c.jobs[k].uid >= since
  }

  lemma {:induction false} CallStaysSafe(c: Cluster, p: CallState, k: Key, turns: seq<Turn>)
    requires SafeAt(c, p, k) && !Misreads(c, p, turns).secret
    ensures var (d, q) := Drive(c, p, turns); SafeAt(d, q, k)
    decreases |turns|
  {
    if turns == [] || p.Returned? {
    } else {
      MovesKeepSafe(c, p, k, turns[0].moves);
      RequestKeepsSafe(ApplyAll(c, turns[0].moves), p, k, turns[0].outcome);
      var (c', p') := TakeTurn(c, p, turns[0]);
      CallStaysSafe(c', p', k, turns[1..]);
    }
  }

  lemma SafeCallStaysResolved(c: Cluster, p: CallState, k: Key, turns: seq<Turn>)
    requires SafeAt(c, p, k) && !Misreads(c, p, turns).secret
    ensures StaysResolved(Drive(c, p, turns).0, k)
  {
    CallStaysSafe(c, p, k, turns);
    forall after ensures Resolved(ApplyAll(Drive(c, p, turns).0, after), k) {
      MovesKeepSafe(Drive(c, p, turns).0, Drive(c, p, turns).1, k, after);
    }
  }

  lemma UnbackedIsResolvedIff(c: Cluster, p: CallState, k: Key, spec: JobSpec, since: Uid)
    requires Unbacked(c, p, k, spec, since) && spec.secrets != map[]
    ensures StaysResolved(c, k) <==> !NewJobLives(c, k, since)
  {
    if NewJobLives(c, k, since) {
      assert spec.secrets.Keys != {};
      assert ApplyAll(c, []) == c && !Resolved(c, k);
    } else {
      forall after ensures Resolved(ApplyAll(c, after), k) {
        MovesAge(c, after, k);
      }
    }
  }

  /** The false conflict leads to an unbacked call. */
  lemma MisreadUnbacks(c: Cluster, p: CallState, k: Key, outcome: Outcome, since: Uid)
    requires SafeAt(c, p, k) && p.CreatingSecret? && FalseConflict(c, Request(p), outcome)
    requires since <= c.nextUid && (k in c.jobs ==> c.jobs[k].uid < since)
    ensures var (d, reply) := Serve(c, Request(p), outcome); Unbacked(d, Resume(p, reply), k, p.spec, since)
  {
    RepliesInform(c, Request(p), outcome);
  }

  /** Before its Create a call hands out no UID. */
  lemma UidsWait(c: Cluster, p: CallState, k: Key, outcome: Outcome)
    requires !p.Returned? && !p.CreatingJob? && (k in c.jobs ==> c.jobs[k].uid < c.nextUid)
    ensures var d := Serve(c, Request(p), outcome).0;
            d.nextUid == c.nextUid && (k in d.jobs ==> d.jobs[k].uid < d.nextUid)
  {
    RequestsChangeOneName(c, Request(p), outcome, k);
  }

  /** The exact condition, execution by execution: from a safe start, whatever the faults,
      the moves and the crash, the promise is broken exactly if the Secret's create was
      refused with a conflict while the name was free, and a Job the call created lives. */
  lemma {:induction false} ExecutionIsSafeIff(c: Cluster, p: CallState, k: Key, turns: seq<Turn>)
    requires SafeAt(c, p, k) && (k in c.jobs ==> c.jobs[k].uid < c.nextUid)
    ensures var d := Drive(c, p, turns).0;
            StaysResolved(d, k) <==> !(Misreads(c, p, turns).secret && NewJobLives(d, k, c.nextUid))
    decreases |turns|
  {
    if !Misreads(c, p, turns).secret {
      SafeCallStaysResolved(c, p, k, turns);
    } else {
      var moved, outcome := ApplyAll(c, turns[0].moves), turns[0].outcome;
      var (c', p') := TakeTurn(c, p, turns[0]);
      MisreadsLieAhead(c, p, turns);
      MovesAge(c, turns[0].moves, k);
      MovesKeepSafe(c, p, k, turns[0].moves);
      if p.CreatingSecret? && FalseConflict(moved, Request(p), outcome) {
        MisreadUnbacks(moved, p, k, outcome, c.nextUid);
        CallStaysUnbacked(c', p', k, p.spec, c.nextUid, turns[1..]);
        UnbackedIsResolvedIff(Drive(c', p', turns[1..]).0, Drive(c', p', turns[1..]).1, k, p.spec, c.nextUid);
      } else {
        RequestKeepsSafe(moved, p, k, outcome);
        UidsWait(moved, p, k, outcome);
        ExecutionIsSafeIff(c', p', k, turns[1..]);
      }
    }
  }

  // ---------------------------------------------------------------- Start by start

  /** From here the call cannot take a refused create for its Secret. */
  predicate CannotMisread(c: Cluster, p: CallState) {
    match p
    case CreatingSecret(_, _) => Target(p) in c.secrets && c.secrets[Target(p)].owner.None?
    case DeletingJob(_, goal) => goal.Redispatch? ==> goal.spec.secrets == map[]
    case DeletingSecret(_, goal) => goal.Redispatch? ==> goal.spec.secrets == map[]
    case _ => true
  }

  lemma {:induction false} NothingMisread(c: Cluster, p: CallState, turns: seq<Turn>)
    requires CannotMisread(c, p)
    ensures !Misreads(c, p, turns).secret
    decreases |turns|
  {
    if turns == [] || p.Returned? {
    } else {
      MovesAge(c, turns[0].moves, Target(p));
      var (c', p') := TakeTurn(c, p, turns[0]);
      NothingMisread(c', p', turns[1..]);
    }
  }

  /** Moves that take a Job through its life to its end. */
  function RunOut(c: Cluster, k: Key): seq<Move> {
    if k in c.jobs then
      [Progress(k, if Finished(c.jobs[k].status) then c.jobs[k].status else Completed(c.jobs[k].status)), Expire(k), Vanish(k)]
    else []
  }

  lemma JobsRunOut(c: Cluster, k: Key)
    ensures ApplyAll(c, RunOut(c, k)) == c.(jobs := c.jobs - {k})
  {
    if k in c.jobs {
      var moves := RunOut(c, k);
      var c1 := Apply(c, moves[0]);
      var c2 := Apply(c1, moves[1]);
      if !Finished(c.jobs[k].status) {
        CompletedIsFinished(c.jobs[k].status);
      }
      PhaseReadsTheVerdict(moves[0].status);
      assert moves[1..] == [moves[1], moves[2]] && moves[1..][1..] == [moves[2]];
      assert ApplyAll(c2, [moves[2]]) == Apply(c2, moves[2]);
      assert Apply(c2, moves[2]).jobs == c.jobs - {k};
    } else {
      assert c.jobs - {k} == c.jobs;
    }
  }

  /** The Job that was there has run out when its create is served. */
  lemma CreateAfterRunOut(c: Cluster, namespace: string, spec: JobSpec)
    requires spec.secrets != map[]
    ensures var k := Key(namespace, spec.name);
            var d := TakeTurn(c, CreatingJob(namespace, spec), Turn(RunOut(c, k), Served)).0;
            d.LiveAs(k, c.nextUid) && d.jobs[k].manifest == JobFor(spec, namespace) && d.secrets == c.secrets
  {
    JobsRunOut(c, Key(namespace, spec.name));
  }

  /** The trap: Run takes an old Secret for its own, or a false conflict for a Secret, and
      once the Job that was there has run out it dispatches without having made one. */
  lemma JobWithoutOwnSecret(c: Cluster, namespace: string, spec: JobSpec) returns (turns: seq<Turn>)
    requires spec.secrets != map[]
    ensures var k, p := Key(namespace, spec.name), StartRun(namespace, spec);
            var d := Drive(c, p, turns).0;
            && d.LiveAs(k, c.nextUid) && d.jobs[k].manifest == JobFor(spec, namespace) && d.secrets == c.secrets
            && (Misreads(c, p, turns).secret <==> k !in c.secrets)
  {
    var k, p, p1 := Key(namespace, spec.name), StartRun(namespace, spec), CreatingJob(namespace, spec);
    var first := Turn([], if k in c.secrets then Served else Faulty(Conflict, "", false));
    var second := Turn(RunOut(c, k), Served);
    turns := [first, second];
    assert TakeTurn(c, p, first) == (c, p1) by {
      assert ApplyAll(c, []) == c;
      RepliesInform(c, Request(p), first.outcome);
    }
    CreateAfterRunOut(c, namespace, spec);
    assert turns[1..] == [second];
    MisreadsLieAhead(c, p1, [second]);
    DriveOneMore(c, p1, [], second);
    assert [] + [second] == [second];
  }

  /** A Job that is not secured can be left without its Secret by the cluster alone. */
  lemma InsecureBreaks(c: Cluster, k: Key)
    requires !Secured(c, k)
    ensures !StaysResolved(c, k)
  {
    assert ApplyAll(c, []) == c;
    if Resolved(c, k) {
      var d := Apply(c, Collect(k));
      assert ApplyAll(c, [Collect(k)]) == ApplyAll(d, []) == d;
      assert !Resolved(ApplyAll(c, [Collect(k)]), k);
    } else {
      assert !Resolved(ApplyAll(c, []), k);
    }
  }

  lemma InsecureNow(c: Cluster, p: CallState)
    requires !p.Returned? && !Secured(c, Target(p))
    ensures !ResolvedUnlessMisread(c, p)
  {
    assert Drive(c, p, []) == (c, p) && !Misreads(c, p, []).secret;
    InsecureBreaks(c, Target(p));
  }

  /** The Secret's owner has a UID that was handed out. */
  predicate OwnerIssued(c: Cluster, k: Key) {
    k in c.secrets && c.secrets[k].owner.Some? ==> c.secrets[k].owner.value < c.nextUid
  }

  /** The execution of JobWithoutOwnSecret breaks the promise if the Secret is missing, has
      other keys, or an owner from before. */
  lemma NoSecretOfItsOwnBreaks(c: Cluster, namespace: string, spec: JobSpec) returns (turns: seq<Turn>)
    requires spec.secrets != map[] && OwnerIssued(c, Key(namespace, spec.name))
    requires var k := Key(namespace, spec.name); !(Holds(c, k, spec.secrets.Keys) && c.secrets[k].owner.None?)
    ensures var k, p := Key(namespace, spec.name), StartRun(namespace, spec);
            !StaysResolved(Drive(c, p, turns).0, k) && (Misreads(c, p, turns).secret <==> k !in c.secrets)
  {
    turns := JobWithoutOwnSecret(c, namespace, spec);
    JobNeedsItsSecrets(spec, namespace);
    InsecureBreaks(Drive(c, StartRun(namespace, spec), turns).0, Key(namespace, spec.name));
  }

  /** Exactly when a Run on its own keeps the promise against every fault, crash and move of
      the cluster. A Secret left over under some owner, or with other keys, breaks it. From
      any other start the one execution that can break it is the false conflict, and it can
      unless the Secret is already there. */
  lemma RunAloneIsSafeIff(c: Cluster, namespace: string, spec: JobSpec)
    requires OwnerIssued(c, Key(namespace, spec.name))
    ensures ResolvedUnlessMisread(c, StartRun(namespace, spec)) <==> SafeToRun(c, namespace, spec)
    ensures AlwaysResolved(c, StartRun(namespace, spec)) <==>
            SafeToRun(c, namespace, spec) && (spec.secrets != map[] ==> Key(namespace, spec.name) in c.secrets)
  {
    var k, p := Key(namespace, spec.name), StartRun(namespace, spec);
    if SafeToRun(c, namespace, spec) {
      forall turns ensures !Misreads(c, p, turns).secret ==> StaysResolved(Drive(c, p, turns).0, k) {
        if !Misreads(c, p, turns).secret {
          SafeCallStaysResolved(c, p, k, turns);
        }
      }
      if spec.secrets != map[] && k !in c.secrets {
        var turns := NoSecretOfItsOwnBreaks(c, namespace, spec);
        assert !StaysResolved(Drive(c, p, turns).0, k);
      } else {
        forall turns ensures StaysResolved(Drive(c, p, turns).0, k) {
          NothingMisread(c, p, turns);
        }
      }
    } else {
      if !Secured(c, k) {
        InsecureNow(c, p);
      } else {
        var turns := NoSecretOfItsOwnBreaks(c, namespace, spec);
        assert !StaysResolved(Drive(c, p, turns).0, k);
      }
    }
  }

  /** Replace is immune to the old Secret, because it removes it first, and for the same
      reason never to the false conflict: apart from that it keeps the promise exactly
      when a Job already there is secured. */
  lemma ReplaceAloneIsSafeIff(c: Cluster, namespace: string, spec: JobSpec)
    ensures ResolvedUnlessMisread(c, StartReplace(namespace, spec)) <==> Secured(c, Key(namespace, spec.name))
    ensures AlwaysResolved(c, StartReplace(namespace, spec)) <==>
            Secured(c, Key(namespace, spec.name)) && spec.secrets == map[]
  {
    var k, p := Key(namespace, spec.name), StartReplace(namespace, spec);
    if Secured(c, k) {
      forall turns ensures !Misreads(c, p, turns).secret ==> StaysResolved(Drive(c, p, turns).0, k) {
        if !Misreads(c, p, turns).secret {
          SafeCallStaysResolved(c, p, k, turns);
        }
      }
      if spec.secrets != map[] {
        SmoothDelete(c, namespace, Redispatch(spec));
        var d := Deleted(c, k);
        var turns := NoSecretOfItsOwnBreaks(d, namespace, spec);
        DriveInTwo(c, p, [SMOOTH, SMOOTH], turns);
        assert !StaysResolved(Drive(c, p, [SMOOTH, SMOOTH] + turns).0, k);
      } else {
        forall turns ensures StaysResolved(Drive(c, p, turns).0, k) {
          NothingMisread(c, p, turns);
        }
      }
    } else {
      InsecureNow(c, p);
    }
  }

  // ---------------------------------------------------------------- The right values

  lemma LaterRequestKeepsData(c: Cluster, p: CallState, k: Key, outcome: Outcome)
    requires (p.CreatingJob? || p.Adopting?) && Target(p) == k
    ensures var (d, reply) := Serve(c, Request(p), outcome);
            var q := Resume(p, reply);
            && (k in d.secrets ==> k in c.secrets && d.secrets[k].manifest == c.secrets[k].manifest)
            && (q.Returned? || ((q.CreatingJob? || q.Adopting?) && Target(q) == k))
  {
  }

  /** Once Run is past its first request, it makes no Secret and changes no data. */
  lemma {:induction false} LaterRequestsKeepData(c: Cluster, p: CallState, k: Key, turns: seq<Turn>)
    requires p.Returned? || ((p.CreatingJob? || p.Adopting?) && Target(p) == k)
    ensures var d := Drive(c, p, turns).0;
            k in d.secrets ==> k in c.secrets && d.secrets[k].manifest == c.secrets[k].manifest
    decreases |turns|
  {
    if turns == [] || p.Returned? {
    } else {
      MovesAge(c, turns[0].moves, k);
      LaterRequestKeepsData(ApplyAll(c, turns[0].moves), p, k, turns[0].outcome);
      var (c', p') := TakeTurn(c, p, turns[0]);
      LaterRequestsKeepData(c', p', k, turns[1..]);
    }
  }

  /** The keys are not all: the pods of a Job that Run dispatched read this spec's values
      exactly if its first request met no Secret with other data. Replace has no such trap,
      see ReplaceRefreshes. */
  lemma RunsOnOwnValuesIff(c: Cluster, namespace: string, spec: JobSpec, turns: seq<Turn>)
    requires spec.secrets != map[] && turns != []
    ensures var k, d := Key(namespace, spec.name), Drive(c, StartRun(namespace, spec), turns).0;
            var met := ApplyAll(c, turns[0].moves);
            k in d.secrets ==>
              (d.secrets[k].manifest.data == spec.secrets <==>
               !(k in met.secrets && met.secrets[k].manifest.data != spec.secrets))
  {
    var k := Key(namespace, spec.name);
    var (c', p') := TakeTurn(c, StartRun(namespace, spec), turns[0]);
    LaterRequestsKeepData(c', p', k, turns[1..]);
  }
}
