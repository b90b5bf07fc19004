/** Which errors leave the job runner, and what HTTP answer they become. */
module ErrorClosure {
  import opened Common
  import opened Errors
  import opened JobObjects
  import opened Kubernetes
  import opened Clusters
  import opened JobProtocol
  import opened Routes

  /** The sentinel a request's failure may not surface as: Run swallows conflicts on its
      creates, Delete not-founds on its deletes. */
  function Swallowed(p: CallState): Sentinel {
    if p.DeletingJob? || p.DeletingSecret? then ResourceNotFound else ResourceConflict
  }

  /** Whatever error a client returns, one of its own or not, the call neither surfaces the
      class it swallows nor changes any other: it gives up with an error of exactly the
      same classes, or goes on. */
  lemma SwallowedOrKept(p: CallState, e: Error, s: Sentinel)
    requires !p.Returned?
    ensures var p' := Resume(p, Failed(e));
            if p'.Returned? && p'.err.Some? then
              (Is(p'.err.value, s) <==> Is(e, s)) && !Is(p'.err.value, Swallowed(p)) && !p.Adopting?
            else Is(e, Swallowed(p)) || p.Adopting?
    ensures Swallowed(p) == if p.DeletingJob? || p.DeletingSecret? then ResourceNotFound else ResourceConflict
  {
  }

  /** The text of the error tells which request failed, and of which Job. */
  lemma FailuresTellTheStep(p: CallState, e: Error)
    requires !p.Returned? && Resume(p, Failed(e)).Returned? && Resume(p, Failed(e)).err.Some?
    ensures var step := match p
                        case CreatingSecret(_, _) => "creating credentials secret for job "
                        case CreatingJob(_, _) => "creating job "
                        case DeletingJob(_, _) => "deleting job "
                        case DeletingSecret(_, _) => "deleting credentials secret for job "
                        case _ => "";
            Errors.Text(Resume(p, Failed(e)).err.value) == step + Target(p).name + ": " + Errors.Text(e)
  {
    var wrapped := Resume(p, Failed(e)).err.value;
    assert Errors.Text(wrapped) == wrapped.before + Errors.Text(e) + "" == wrapped.before + Errors.Text(e);
  }

  /** The error is a wrapped API failure of a class among the allowed ones. */
  ghost predicate WrapsFailure(e: Error, excluded: Sentinel) {
    exists before, f :: e == Wrap(before, WrapK8sError(f), "") && SentinelOf(f.class_) != excluded
  }

  /** What a call may return: Run nothing that matches conflict, Delete nothing that
      matches not found, Replace one of the two. */
  ghost predicate ClosedErrors(p: CallState, run: bool, delete: bool) {
    match p
    case Returned(Some(e)) => (run && WrapsFailure(e, ResourceConflict)) || (delete && WrapsFailure(e, ResourceNotFound))
    case Returned(None) => true
    case DeletingJob(_, goal) => delete && (goal.Redispatch? ==> run)
    case DeletingSecret(_, goal) => delete && (goal.Redispatch? ==> run)
    case _ => run
  }

  lemma RequestsReturnClosedErrors(c: Cluster, p: CallState, outcome: Outcome, run: bool, delete: bool)
    requires ClosedErrors(p, run, delete) && !p.Returned?
    ensures ClosedErrors(Resume(p, Serve(c, Request(p), outcome).1), run, delete)
  {
    var reply := Serve(c, Request(p), outcome).1;
    var q := Resume(p, reply);
    RepliesInform(c, Request(p), outcome);
    if q.Returned? && q.err.Some? {
      var f :| reply.error == WrapK8sError(f);
      WrappedHasOneSentinel(f, Swallowed(p));
      assert q.err.value == Wrap(q.err.value.before, WrapK8sError(f), "");
      assert WrapsFailure(q.err.value, Swallowed(p));
    }
  }

  lemma {:induction false} CallsReturnClosedErrors(c: Cluster, p: CallState, turns: seq<Turn>, run: bool, delete: bool)
    requires ClosedErrors(p, run, delete)
    ensures ClosedErrors(Drive(c, p, turns).1, run, delete)
    decreases |turns|
  {
    if turns == [] || p.Returned? {
    } else {
      var (c', p') := TakeTurn(c, p, turns[0]);
      RequestsReturnClosedErrors(ApplyAll(c, turns[0].moves), p, turns[0].outcome, run, delete);
      CallsReturnClosedErrors(c', p', turns[1..], run, delete);
    }
  }

  const NOT_FOUND := Response(404, "resource not found")
  const EXISTS := Response(409, "resource already exists")
  const INVALID := Response(422, "resource invalid")
  const UPSTREAM := Response(502, "upstream service error")

  /** The answer to a failure of the API server, however the runner wrapped it, is the one
      of its class, and tells nothing of its text. */
  lemma FailureKeepsItsClass(before: string, f: ApiFailure, r: Response)
    requires Answers(Some(Wrap(before, WrapK8sError(f), "")), r)
    ensures r == match f.class_
                 case NotFound => NOT_FOUND
                 case AlreadyExists | Conflict => EXISTS
                 case Invalid => INVALID
                 case Other => UPSTREAM
  {
    var e := Wrap(before, WrapK8sError(f), "");
    WrappedHasOneSentinel(f, SentinelOf(f.class_));
    assert Leaves(e) == Leaves(WrapK8sError(f));
    var s := LeavesDecide(e, r);
    assert SentinelOf(f.class_) in Leaves(e);
  }

  lemma ClosedErrorsAnswer(e: Error, r: Response, run: bool, delete: bool)
    requires Answers(Some(e), r) && ClosedErrors(Returned(Some(e)), run, delete)
    ensures r in {NOT_FOUND, EXISTS, INVALID, UPSTREAM}
    ensures r == EXISTS ==> delete
    ensures r == NOT_FOUND ==> run
  {
    var excluded := if run && WrapsFailure(e, ResourceConflict) then ResourceConflict else ResourceNotFound;
    var before, f :| e == Wrap(before, WrapK8sError(f), "") && SentinelOf(f.class_) != excluded;
    FailureKeepsItsClass(before, f, r);
  }

  /** End to end: no fault or move whatsoever makes a call end in an HTTP answer outside
      these, so no text of the API server ever reaches a user through it. */
  lemma CallsAnswerByClass(c: Cluster, namespace: string, name: string, spec: JobSpec, turns: seq<Turn>, e: Error, r: Response)
    requires Answers(Some(e), r)
    ensures Drive(c, StartRun(namespace, spec), turns).1 == Returned(Some(e)) ==> r in {NOT_FOUND, INVALID, UPSTREAM}
    ensures Drive(c, StartDelete(namespace, name), turns).1 == Returned(Some(e)) ==> r in {EXISTS, INVALID, UPSTREAM}
    ensures Drive(c, StartReplace(namespace, spec), turns).1 == Returned(Some(e)) ==> r in {NOT_FOUND, EXISTS, INVALID, UPSTREAM}
  {
    var run, delete, replace := StartRun(namespace, spec), StartDelete(namespace, name), StartReplace(namespace, spec);
    if Drive(c, run, turns).1 == Returned(Some(e)) {
      CallsReturnClosedErrors(c, run, turns, true, false);
      ClosedErrorsAnswer(e, r, true, false);
    }
    if Drive(c, delete, turns).1 == Returned(Some(e)) {
      CallsReturnClosedErrors(c, delete, turns, false, true);
      ClosedErrorsAnswer(e, r, false, true);
    }
    if Drive(c, replace, turns).1 == Returned(Some(e)) {
      CallsReturnClosedErrors(c, replace, turns, true, true);
      ClosedErrorsAnswer(e, r, true, true);
    }
  }

  /** wrapK8sError reports AlreadyExists and Conflict alike, so a call cannot tell a taken
      name from any other conflict the API server may report on a create: it goes on, or
      returns nil, as if the object were there. */
  lemma ConflictsAreAlike(p: CallState, text: string, text': string)
    requires p.CreatingSecret? || p.CreatingJob?
    ensures Resume(p, Failed(WrapK8sError(ApiFailure(AlreadyExists, text)))) ==
            Resume(p, Failed(WrapK8sError(ApiFailure(Conflict, text'))))
    ensures Resume(p, Failed(WrapK8sError(ApiFailure(Conflict, text')))) ==
            if p.CreatingJob? then Returned(None) else CreatingJob(p.namespace, p.spec)
  {
    WrappedHasOneSentinel(ApiFailure(AlreadyExists, text), ResourceConflict);
    WrappedHasOneSentinel(ApiFailure(Conflict, text'), ResourceConflict);
  }
}
