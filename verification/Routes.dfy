/** HandleError of provider/routes.go: the ordered classification of an error into an
    HTTP response. */
module Routes {
  import opened Common
  import opened Errors

  datatype Response = Response(status: int, body: string)

  const FALLBACK := Response(500, "internal server error")

  /** The documented contract: precedence, status and body of each sentinel. */
  function Rank(s: Sentinel): nat {
    match s
    case ServiceNotFound => 0
    case BackupNotFound => 1
    case InvalidArgument => 2
    case ServiceNotHealthy => 3
    case NamespaceNotFound => 4
    case Busy => 5
    case ServiceUnavailable => 6
    case NotImplemented => 7
    case ResourceNotFound => 8
    case ResourceConflict => 9
    case ResourceInvalid => 10
    case KubernetesRequestFailed => 11
  }

  function Status(s: Sentinel): int {
    match s
    case ServiceNotFound | BackupNotFound | NamespaceNotFound | ResourceNotFound => 404
    case InvalidArgument => 400
    case Busy | ResourceConflict => 409
    case ResourceInvalid => 422
    case NotImplemented => 501
    case ServiceNotHealthy | KubernetesRequestFailed => 502
    case ServiceUnavailable => 503
  }

  /** Infrastructure errors have a fixed body, domain errors their own text. */
  function Body(s: Sentinel, text: string): string {
    match s
    case ResourceNotFound => "resource not found"
    case ResourceConflict => "resource already exists"
    case ResourceInvalid => "resource invalid"
    case KubernetesRequestFailed => "upstream service error"
    case _ => text
  }

  /** s decides the answer: the error matches it and nothing of higher precedence. */
  ghost predicate Decides(err: Option<Error>, s: Sentinel) {
    Matches(err, s) && forall t: Sentinel | Matches(err, t) :: Rank(s) <= Rank(t)
  }

  /** r is the contract's answer to err. */
  ghost predicate Answers(err: Option<Error>, r: Response) {
    if forall s: Sentinel :: !Matches(err, s) then r == FALLBACK
    else exists s :: Decides(err, s) && r == Response(Status(s), Body(s, Text(err.value)))
  }

  /** The ordered conditions of the switch: which case is taken. */
  function Case(err: Option<Error>): Option<Sentinel> {
    if Matches(err, ServiceNotFound) then Some(ServiceNotFound)
    else if Matches(err, BackupNotFound) then Some(BackupNotFound)
    else if Matches(err, InvalidArgument) then Some(InvalidArgument)
    else if Matches(err, ServiceNotHealthy) then Some(ServiceNotHealthy)
    else if Matches(err, NamespaceNotFound) then Some(NamespaceNotFound)
    else if Matches(err, Busy) then Some(Busy)
    else if Matches(err, ServiceUnavailable) then Some(ServiceUnavailable)
    else if Matches(err, NotImplemented) then Some(NotImplemented)
    else if Matches(err, ResourceNotFound) then Some(ResourceNotFound)
    else if Matches(err, ResourceConflict) then Some(ResourceConflict)
    else if Matches(err, ResourceInvalid) then Some(ResourceInvalid)
    else if Matches(err, KubernetesRequestFailed) then Some(KubernetesRequestFailed)
    else None
  }

  lemma CaseDecides(err: Option<Error>)
    ensures Case(err).None? ==> forall s: Sentinel :: !Matches(err, s)
    ensures Case(err).Some? ==> Decides(err, Case(err).value)
  {
    forall t: Sentinel | Matches(err, t) ensures Case(err).Some? && Rank(Case(err).value) <= Rank(t) {
      assert Rank(t) <= 11;
    }
  }

  /** The part of the gin context HandleError writes. */
  class Context {
    var response: Option<Response>

    constructor ()
      ensures response == None
    {
      response := None;
    }

    method Json(status: int, body: string)
      modifies this
      ensures response == Some(Response(status, body))
    {
      response := Some(Response(status, body));
    }
  }

  method HandleError(c: Context, err: Option<Error>)
    modifies c
    ensures c.response.Some? && Answers(err, c.response.value)
  {
    var message := if err.Some? then Text(err.value) else "";
    CaseDecides(err);
    match Case(err)
    case Some(ServiceNotFound) => c.Json(404, message);
    case Some(BackupNotFound) => c.Json(404, message);
    case Some(InvalidArgument) => c.Json(400, message);
    case Some(ServiceNotHealthy) => c.Json(502, message);
    case Some(NamespaceNotFound) => c.Json(404, message);
    case Some(Busy) => c.Json(409, message);
    case Some(ServiceUnavailable) => c.Json(503, message);
    case Some(NotImplemented) => c.Json(501, message);
    case Some(ResourceNotFound) => c.Json(404, "resource not found");
    case Some(ResourceConflict) => c.Json(409, "resource already exists");
    case Some(ResourceInvalid) => c.Json(422, "resource invalid");
    case Some(KubernetesRequestFailed) => c.Json(502, "upstream service error");
    case None => c.Json(500, "internal server error");
  }

  lemma AnswerIsUnique(err: Option<Error>, r: Response, r': Response)
    requires Answers(err, r) && Answers(err, r')
    ensures r == r'
  {
    if s, s' :| Decides(err, s) && Decides(err, s') {
      assert Rank(s) == Rank(s');
    }
  }

  /** The documented answers, in their order of precedence. */
  lemma AnswersInOrder(err: Option<Error>, r: Response)
    requires Answers(err, r)
    ensures r == if Matches(err, ServiceNotFound) then Response(404, Text(err.value))
                 else if Matches(err, BackupNotFound) then Response(404, Text(err.value))
                 else if Matches(err, InvalidArgument) then Response(400, Text(err.value))
                 else if Matches(err, ServiceNotHealthy) then Response(502, Text(err.value))
                 else if Matches(err, NamespaceNotFound) then Response(404, Text(err.value))
                 else if Matches(err, Busy) then Response(409, Text(err.value))
                 else if Matches(err, ServiceUnavailable) then Response(503, Text(err.value))
                 else if Matches(err, NotImplemented) then Response(501, Text(err.value))
                 else if Matches(err, ResourceNotFound) then Response(404, "resource not found")
                 else if Matches(err, ResourceConflict) then Response(409, "resource already exists")
                 else if Matches(err, ResourceInvalid) then Response(422, "resource invalid")
                 else if Matches(err, KubernetesRequestFailed) then Response(502, "upstream service error")
                 else Response(500, "internal server error")
  {
    CaseDecides(err);
    var s := Case(err);
    if s.Some? {
      assert Decides(err, s.value);
      AnswerIsUnique(err, r, Response(Status(s.value), Body(s.value, Text(err.value))));
    }
  }

  /** What a bare sentinel is answered with, text and all. */
  lemma BareAnswers(s: Sentinel, r: Response)
    requires Answers(Some(Leaf(s)), r)
    ensures s == ServiceNotFound ==> r == Response(404, "service not found")
    ensures s == BackupNotFound ==> r == Response(404, "backup not found")
    ensures s == InvalidArgument ==> r == Response(400, "invalid argument")
    ensures s == ServiceNotHealthy ==> r == Response(502, "service not healthy")
    ensures s == NamespaceNotFound ==> r == Response(404, "namespace not found")
    ensures s == Busy ==> r == Response(409, "conflict")
    ensures s == ServiceUnavailable ==> r == Response(503, "service unavailable")
    ensures s == NotImplemented ==> r == Response(501, "not implemented")
  {
    AnswersInOrder(Some(Leaf(s)), r);
  }

  /** The leaves of the error tree decide the answer: the foremost one, if there is any. */
  lemma LeavesDecide(e: Error, r: Response) returns (s: Option<Sentinel>)
    requires Answers(Some(e), r)
    ensures s.None? ==> Leaves(e) == {} && r == FALLBACK
    ensures s.Some? ==> s.value in Leaves(e) && forall t | t in Leaves(e) :: Rank(s.value) <= Rank(t)
    ensures s.Some? ==> r == Response(Status(s.value), Body(s.value, Text(e)))
  {
    forall t: Sentinel ensures Matches(Some(e), t) <==> t in Leaves(e) { IsFindsExactlyTheLeaves(e, t); }
    if Leaves(e) == {} {
      s := None;
    } else {
      var t :| t in Leaves(e);
      assert Matches(Some(e), t);
      var d :| Decides(Some(e), d) && r == Response(Status(d), Body(d, Text(e)));
      s := Some(d);
    }
  }

  lemma RankIsInjective(s: Sentinel, t: Sentinel)
    requires Rank(s) == Rank(t)
    ensures s == t
  {
  }

  /** No Kubernetes internals leak: when every sentinel in the tree is an infrastructure
      one, status and body depend on the set of sentinels alone, never on a wrapped text. */
  lemma InfrastructureTextNeverLeaks(a: Error, b: Error, r: Response, r': Response)
    requires Leaves(a) == Leaves(b) && forall s | s in Leaves(a) :: s.Infrastructure()
    requires Answers(Some(a), r) && Answers(Some(b), r')
    ensures r == r'
  {
    var s := LeavesDecide(a, r);
    var s' := LeavesDecide(b, r');
    if s.Some? && s'.Some? {
      RankIsInjective(s.value, s'.value);
    }
  }

  ghost predicate HasDomainLeaf(e: Error) {
    exists s :: s in Leaves(e) && !s.Infrastructure()
  }

  /** A domain error anywhere in the tree wins over every infrastructure one and passes
      its full text on; without one the body is one of five fixed texts. */
  lemma DomainTextPassesThrough(e: Error, r: Response)
    requires Answers(Some(e), r)
    ensures HasDomainLeaf(e) ==> r.body == Text(e) && r.status in {400, 404, 409, 501, 502, 503}
    ensures !HasDomainLeaf(e) ==>
              r in {FALLBACK, Response(404, "resource not found"), Response(409, "resource already exists"),
                    Response(422, "resource invalid"), Response(502, "upstream service error")}
  {
    var s := LeavesDecide(e, r);
    if HasDomainLeaf(e) {
      var d :| d in Leaves(e) && !d.Infrastructure();
      assert Rank(d) < 8;
    }
  }

  /** Wrapping any number of times never changes the status. */
  lemma WrappingKeepsStatus(e: Error, layers: seq<(string, string)>, r: Response, r': Response)
    requires Answers(Some(e), r) && Answers(Some(WrapAll(e, layers)), r')
    ensures r'.status == r.status
    ensures !HasDomainLeaf(e) ==> r' == r
  {
    WrappingKeepsLeaves(e, layers);
    var s := LeavesDecide(e, r);
    var s' := LeavesDecide(WrapAll(e, layers), r');
    if s.Some? && s'.Some? {
      RankIsInjective(s.value, s'.value);
    }
  }
}
