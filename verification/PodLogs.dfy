/** Which logs explain a failure: those of the newest pod that has any. */
module PodLogs {
  import opened Common
  import opened Errors
  import opened Sorting
  import opened JobObjects
  import opened JobStatuses

  const FAILURE_LOG_TAIL_LINES := 20

  datatype LogRequest = LogRequest(namespace: string, pod: string, container: string, tailLines: int)

  type LogReply = Result<string, Error>

  /** Logs as they were asked for and what was answered; the same question may get another
      answer later. */
  datatype LogRead = LogRead(request: LogRequest, reply: LogReply)

  datatype Pod = Pod(name: string, created: Time)

  /** sort.Slice's less in failedPodLogs: later pods first. */
  predicate Newer(a: Pod, b: Pod) {
    b.created < a.created
  }

  lemma NewerIsAnOrder()
    ensures StrictWeakOrder(Newer)
  {
  }

  function TailOf(namespace: string, pod: Pod): LogRequest {
    LogRequest(namespace, pod.name, JOB_CONTAINER_NAME, FAILURE_LOG_TAIL_LINES)
  }

  /** What an answer has to say; an error says as little as an empty log. */
  function Said(reply: LogReply): string {
    if reply.Ok? then reply.value else ""
  }

  /** The last 20 lines of the pod's job container were asked for. */
  ghost predicate Asked(answers: seq<LogRead>, namespace: string, pod: Pod) {
    exists i | 0 <= i < |answers| :: answers[i].request == LogRequest(namespace, pod.name, "job", 20)
  }

  /** The pods were asked in the order of their creation, newest first, until one had
      something to say: all answers but that one say nothing. If there is an explanation, it
      is the last answer, that of a listed pod, and every pod created later was asked before;
      if there is none, every pod was asked. */
  ghost predicate Explains(pods: seq<Pod>, answers: seq<LogRead>, namespace: string, explanation: string) {
    if explanation == "" then
      && (forall i | 0 <= i < |answers| :: Said(answers[i].reply) == "")
      && (forall p | p in pods :: Asked(answers, namespace, p))
    else
      && answers != [] && answers[|answers| - 1].reply == Ok(explanation)
      && (forall i | 0 <= i < |answers| - 1 :: Said(answers[i].reply) == "")
      && (exists p | p in pods ::
            answers[|answers| - 1].request == LogRequest(namespace, p.name, "job", 20) &&
            forall q | q in pods && q.created > p.created :: Asked(answers[..|answers| - 1], namespace, q))
  }

  /** The scan asked the pods one after the other and stopped at the first that had
      something to say, or at the end. */
  ghost predicate Scanned(sorted: seq<Pod>, answers: seq<LogRead>, namespace: string, logs: string) {
    && |answers| <= |sorted|
    && (forall i | 0 <= i < |answers| :: answers[i].request == TailOf(namespace, sorted[i]))
    && (forall i | 0 <= i < |answers| && (logs == "" || i < |answers| - 1) :: Said(answers[i].reply) == "")
    && (if logs == "" then |answers| == |sorted| else answers != [] && Said(answers[|answers| - 1].reply) == logs)
  }

  /** Scanning from the newest pod, the first readable log explains the failure. */
  lemma FirstReadableExplains(listed: seq<Pod>, sorted: seq<Pod>, answers: seq<LogRead>, namespace: string, logs: string)
    requires multiset(listed) == multiset(sorted) && SortedBy(sorted, Newer)
    requires Scanned(sorted, answers, namespace, logs)
    ensures Explains(listed, answers, namespace, logs)
  {
    forall p ensures p in listed <==> p in sorted {
      assert p in listed <==> p in multiset(listed);
      assert p in sorted <==> p in multiset(sorted);
    }
    if logs == "" {
      forall p | p in listed ensures Asked(answers, namespace, p) {
        var i :| 0 <= i < |sorted| && sorted[i] == p;
        assert answers[i].request == TailOf(namespace, p);
      }
    } else {
      var last := |answers| - 1;
      assert sorted[last] in listed;
      forall q | q in listed && q.created > sorted[last].created ensures Asked(answers[..last], namespace, q) {
        var i :| 0 <= i < |sorted| && sorted[i] == q;
        assert Newer(q, sorted[last]);
        assert answers[..last][i].request == TailOf(namespace, q);
      }
    }
  }

  /** The answers do not change with time. */
  ghost predicate Consistent(answers: seq<LogRead>, store: LogRequest -> LogReply) {
    forall i | 0 <= i < |answers| :: answers[i].reply == store(answers[i].request)
  }

  /** The pod that explains, and what newer ones would say. */
  lemma Explaining(pods: seq<Pod>, answers: seq<LogRead>, store: LogRequest -> LogReply, namespace: string, a: string)
    returns (p: Pod)
    requires Consistent(answers, store) && Explains(pods, answers, namespace, a) && a != ""
    ensures p in pods && Said(store(TailOf(namespace, p))) == a
    ensures forall q | q in pods && q.created > p.created :: Said(store(TailOf(namespace, q))) == ""
  {
    var last := |answers| - 1;
    p :| p in pods && answers[last].request == LogRequest(namespace, p.name, "job", 20) &&
         forall q | q in pods && q.created > p.created :: Asked(answers[..last], namespace, q);
    forall q | q in pods && q.created > p.created ensures Said(store(TailOf(namespace, q))) == "" {
      var i :| 0 <= i < last && answers[..last][i].request == LogRequest(namespace, q.name, "job", 20);
      assert answers[i] == answers[..last][i];
    }
  }

  /** With distinct creation times and answers that do not change, the explanation does not
      depend on the order in which the API server lists the pods, nor on how the unstable
      sort went. */
  lemma ListingOrderIsIrrelevant(pods: seq<Pod>, pods': seq<Pod>, answers: seq<LogRead>, answers': seq<LogRead>,
                                 store: LogRequest -> LogReply, namespace: string, a: string, b: string)
    requires multiset(pods) == multiset(pods')
    requires forall p, q | p in pods && q in pods && p != q :: p.created != q.created
    requires Consistent(answers, store) && Consistent(answers', store)
    requires Explains(pods, answers, namespace, a) && Explains(pods', answers', namespace, b)
    ensures a == b
  {
    forall p ensures p in pods <==> p in pods' {
      assert p in pods <==> p in multiset(pods);
      assert p in pods' <==> p in multiset(pods');
    }
    if a != "" {
      var p := Explaining(pods, answers, store, namespace, a);
      if b != "" {
        var p' := Explaining(pods', answers', store, namespace, b);
        assert p.created == p'.created;
      }
    } else if b != "" {
      var p' := Explaining(pods', answers', store, namespace, b);
    }
  }
}
