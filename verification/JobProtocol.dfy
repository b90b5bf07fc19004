/** Run, Delete and Replace of client/jobrunner.go as programs that stop at every API
    request: a call's state says which request comes next, and the reply decides how it
    goes on. JobRunner shows that its methods run exactly these programs. */
module JobProtocol {
  import opened Common
  import opened Errors
  import opened JobObjects
  import opened Clusters

  /** Why a Job is being deleted: for good, or to dispatch a fresh one. */
  datatype Goal = Remove(name: string) | Redispatch(spec: JobSpec)
  {
    function Name(): string {
      if Remove? then name else spec.name
    }
  }

  datatype CallState =
    | CreatingSecret(namespace: string, spec: JobSpec)
    | CreatingJob(namespace: string, spec: JobSpec)
    | Adopting(namespace: string, spec: JobSpec, uid: Uid)
    | DeletingJob(namespace: string, goal: Goal)
    | DeletingSecret(namespace: string, goal: Goal)
    | Returned(err: Option<Error>)

  function StartRun(namespace: string, spec: JobSpec): CallState {
    if |spec.secrets| > 0 then CreatingSecret(namespace, spec) else CreatingJob(namespace, spec)
  }

  function StartDelete(namespace: string, name: string): CallState {
    DeletingJob(namespace, Remove(name))
  }

  function StartReplace(namespace: string, spec: JobSpec): CallState {
    DeletingJob(namespace, Redispatch(spec))
  }

  /** The name a call works on. */
  function Target(p: CallState): Key
    requires !p.Returned?
  {
    match p
    case CreatingSecret(namespace, spec) => Key(namespace, spec.name)
    case CreatingJob(namespace, spec) => Key(namespace, spec.name)
    case Adopting(namespace, spec, _) => Key(namespace, spec.name)
    case DeletingJob(namespace, goal) => Key(namespace, goal.Name())
    case DeletingSecret(namespace, goal) => Key(namespace, goal.Name())
  }

  ghost function Request(p: CallState): Call
    requires !p.Returned?
  {
    match p
    case CreatingSecret(namespace, spec) => CreateSecret(Target(p), BuildJobSecret(spec, namespace))
    case CreatingJob(namespace, spec) => CreateJob(Target(p), JobFor(spec, namespace))
    case Adopting(_, _, uid) => AdoptSecret(Target(p), uid)
    case DeletingJob(_, _) => DeleteJob(Target(p))
    case DeletingSecret(_, _) => DeleteSecret(Target(p))
  }

  function Refused(what: string, name: string, e: Error): CallState {
    Returned(Some(Wrap(what + name + ": ", e, "")))
  }

  function AfterDelete(namespace: string, goal: Goal): CallState {
    match goal
    case Remove(_) => Returned(None)
    case Redispatch(spec) => StartRun(namespace, spec)
  }

  /** Where a call goes after a reply. */
  function Resume(p: CallState, reply: Reply): CallState
    requires !p.Returned?
  {
    match p
    case CreatingSecret(namespace, spec) =>
      if reply.Failed? && !Is(reply.error, ResourceConflict) then
        Refused("creating credentials secret for job ", spec.name, reply.error)
      else CreatingJob(namespace, spec)
    case CreatingJob(namespace, spec) =>
      if reply.Failed? then
        if Is(reply.error, ResourceConflict) then Returned(None)
        else Refused("creating job ", spec.name, reply.error)
      else if |spec.secrets| > 0 && reply.Created? then Adopting(namespace, spec, reply.uid)
      else Returned(None)
    case Adopting(_, _, _) => Returned(None)
    case DeletingJob(namespace, goal) =>
      if reply.Failed? && !Is(reply.error, ResourceNotFound) then Refused("deleting job ", goal.Name(), reply.error)
      else DeletingSecret(namespace, goal)
    case DeletingSecret(namespace, goal) =>
      if reply.Failed? && !Is(reply.error, ResourceNotFound) then
        Refused("deleting credentials secret for job ", goal.Name(), reply.error)
      else AfterDelete(namespace, goal)
  }

  /** One request as a call lives it: the cluster moves on its own, then the request is
      served or meets a fault. */
  datatype Turn = Turn(moves: seq<Move>, outcome: Outcome)

  ghost function TakeTurn(c: Cluster, p: CallState, t: Turn): (Cluster, CallState)
    requires !p.Returned?
  {
    var (after, reply) := Serve(ApplyAll(c, t.moves), Request(p), t.outcome);
    (after, Resume(p, reply))
  }

  /** A call on its own, turn by turn. Running out of turns before it returns is a crash. */
  ghost function Drive(c: Cluster, p: CallState, turns: seq<Turn>): (Cluster, CallState)
    decreases |turns|
  {
    if turns == [] || p.Returned? then (c, p)
    else
      var (c', p') := TakeTurn(c, p, turns[0]);
      Drive(c', p', turns[1..])
  }

  /** Which creates of a call were refused with a false conflict, and so taken for done. */
  datatype Misread = Misread(secret: bool, job: bool)

  ghost function Misreads(c: Cluster, p: CallState, turns: seq<Turn>): Misread
    decreases |turns|
  {
    if turns == [] || p.Returned? then Misread(false, false)
    else
      var now := FalseConflict(ApplyAll(c, turns[0].moves), Request(p), turns[0].outcome);
      var (c', p') := TakeTurn(c, p, turns[0]);
      var later := Misreads(c', p', turns[1..]);
      Misread((now && p.CreatingSecret?) || later.secret, (now && p.CreatingJob?) || later.job)
  }

  /** What a call has behind it, it does not misread. */
  lemma {:induction false} MisreadsLieAhead(c: Cluster, p: CallState, turns: seq<Turn>)
    ensures p.CreatingJob? || p.Adopting? || p.Returned? ==> !Misreads(c, p, turns).secret
    ensures p.Adopting? || p.Returned? ==> !Misreads(c, p, turns).job
    decreases |turns|
  {
    if turns == [] || p.Returned? {
    } else {
      var (c', p') := TakeTurn(c, p, turns[0]);
      MisreadsLieAhead(c', p', turns[1..]);
    }
  }

  lemma {:induction false} DriveOneMore(c: Cluster, p: CallState, turns: seq<Turn>, t: Turn)
    requires !Drive(c, p, turns).1.Returned?
    ensures var (c', p') := Drive(c, p, turns); Drive(c, p, turns + [t]) == TakeTurn(c', p', t)
    decreases |turns|
  {
    if turns == [] {
      assert [t][1..] == [];
    } else {
      var (c', p') := TakeTurn(c, p, turns[0]);
      DriveOneMore(c', p', turns[1..], t);
      assert (turns + [t])[1..] == turns[1..] + [t];
    }
  }

  lemma {:induction false} DriveInTwo(c: Cluster, p: CallState, first: seq<Turn>, second: seq<Turn>)
    ensures var (c', p') := Drive(c, p, first); Drive(c, p, first + second) == Drive(c', p', second)
    decreases |first|
  {
    if first == [] {
      assert first + second == second;
    } else if p.Returned? {
    } else {
      var (c', p') := TakeTurn(c, p, first[0]);
      assert first + second == [first[0]] + (first[1..] + second);
      DriveInTwo(c', p', first[1..], second);
    }
  }
}
