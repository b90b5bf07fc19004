/** Any number of calls at once, request by request, in every interleaving with each
    other, with crashes and with the cluster's own moves. */
module ConcurrentCalls {
  import opened Common
  import opened Errors
  import opened Clusters
  import opened JobProtocol
  import opened Aging

  type Pid = nat

  /** A request as it was made; landed is the UID of the Job it created, answered or not,
      and misread says that it was a create refused with a false conflict. */
  datatype Event = Event(pid: Pid, call: Call, reply: Reply, landed: Option<Uid>, misread: bool)

  datatype System = System(cluster: Cluster, calls: map<Pid, CallState>, log: seq<Event>)

  datatype Step =
    | Begin(pid: Pid, start: CallState)
    | Advance(pid: Pid, outcome: Outcome)
    | Crash(pid: Pid)
    | Environment(move: Move)

  const CRASHED := Plain("crashed")

  predicate IsStart(p: CallState) {
    match p
    case CreatingSecret(namespace, spec) => spec.secrets != map[]
    case CreatingJob(namespace, spec) => spec.secrets == map[]
    case DeletingJob(_, _) => true
    case _ => false
  }

  predicate InFlight(s: System, pid: Pid) {
    pid in s.calls && !s.calls[pid].Returned?
  }

  /** In flight and working on k. */
  predicate At(s: System, pid: Pid, k: Key) {
    InFlight(s, pid) && Target(s.calls[pid]) == k
  }

  ghost function Next(s: System, step: Step): System {
    match step
    case Begin(pid, start) =>
      if pid !in s.calls && IsStart(start) then s.(calls := s.calls[pid := start]) else s
    case Advance(pid, outcome) =>
      if !InFlight(s, pid) then s
      else
        var call := Request(s.calls[pid]);
        var (c, reply) := Serve(s.cluster, call, outcome);
        var landed := if c.nextUid > s.cluster.nextUid then Some(s.cluster.nextUid) else None;
        System(c, s.calls[pid := Resume(s.calls[pid], reply)],
               s.log + [Event(pid, call, reply, landed, FalseConflict(s.cluster, call, outcome))])
    case Crash(pid) =>
      if InFlight(s, pid) then s.(calls := s.calls[pid := Returned(Some(CRASHED))]) else s
    case Environment(move) => s.(cluster := Apply(s.cluster, move))
  }

  ghost function Execute(s: System, steps: seq<Step>): System
    decreases |steps|
  {
    if steps == [] then s else Execute(Next(s, steps[0]), steps[1..])
  }

  predicate Fresh(s: System) {
    s.calls == map[] && s.log == [] && s.cluster.UidsIssued()
  }

  // ---------------------------------------------------------------- Ownership

  /** Some Create answered the caller with this UID for this name. */
  ghost predicate HandedOut(log: seq<Event>, k: Key, uid: Uid) {
    exists i | 0 <= i < |log| :: log[i].call.CreateJob? && log[i].call.key == k && log[i].reply == Created(uid)
  }

  /** The log tells the truth about UIDs, which only ever grow. */
  ghost predicate UidsGrow(s: System) {
    && s.cluster.UidsIssued()
    && (forall i | 0 <= i < |s.log| && s.log[i].landed.Some? :: s.log[i].landed.value < s.cluster.nextUid)
    && (forall i, j | 0 <= i < j < |s.log| && s.log[i].landed.Some? && s.log[j].landed.Some? ::
          s.log[i].landed.value < s.log[j].landed.value)
    && (forall i | 0 <= i < |s.log| && s.log[i].reply.Created? :: s.log[i].landed == Some(s.log[i].reply.uid))
  }

  ghost predicate OwnersHandedOut(s: System) {
    && (forall k | k in s.cluster.secrets && s.cluster.secrets[k].owner.Some? ::
          HandedOut(s.log, k, s.cluster.secrets[k].owner.value))
    && (forall pid | pid in s.calls && s.calls[pid].Adopting? :: HandedOut(s.log, Target(s.calls[pid]), s.calls[pid].uid))
  }

  /** The event an Advance logs. */
  lemma AdvanceLogs(s: System, pid: Pid, outcome: Outcome) returns (e: Event)
    requires InFlight(s, pid)
    ensures var t := Next(s, Advance(pid, outcome));
            && t.log == s.log + [e] && e.pid == pid && e.call == Request(s.calls[pid])
            && (t.cluster, e.reply) == Serve(s.cluster, e.call, outcome)
            && t.calls == s.calls[pid := Resume(s.calls[pid], e.reply)]
            && e.misread == FalseConflict(s.cluster, e.call, outcome)
            && (e.landed.Some? <==> t.cluster.nextUid > s.cluster.nextUid)
            && (e.landed.Some? ==> e.landed.value == s.cluster.nextUid && e.call.CreateJob?)
            && (e.reply.Created? ==> e.call.CreateJob? && e.landed == Some(e.reply.uid))
  {
    RepliesInform(s.cluster, Request(s.calls[pid]), outcome);
    RequestsChangeOneName(s.cluster, Request(s.calls[pid]), outcome, Target(s.calls[pid]));
    var t := Next(s, Advance(pid, outcome));
    e := t.log[|s.log|];
  }

  lemma AdvanceGrowsUids(s: System, pid: Pid, outcome: Outcome)
    requires UidsGrow(s) && InFlight(s, pid)
    ensures UidsGrow(Next(s, Advance(pid, outcome)))
  {
    var e := AdvanceLogs(s, pid, outcome);
    forall k ensures k in Next(s, Advance(pid, outcome)).cluster.jobs ==>
                       Next(s, Advance(pid, outcome)).cluster.jobs[k].uid < Next(s, Advance(pid, outcome)).cluster.nextUid
    {
      RequestsChangeOneName(s.cluster, e.call, outcome, k);
    }
  }

  lemma HandedOutStays(log: seq<Event>, e: Event, k: Key, uid: Uid)
    requires HandedOut(log, k, uid)
    ensures HandedOut(log + [e], k, uid)
  {
    var i :| 0 <= i < |log| && log[i].call.CreateJob? && log[i].call.key == k && log[i].reply == Created(uid);
    assert (log + [e])[i] == log[i];
  }

  lemma AdvanceKeepsOwners(s: System, pid: Pid, outcome: Outcome)
    requires OwnersHandedOut(s) && InFlight(s, pid)
    ensures OwnersHandedOut(Next(s, Advance(pid, outcome)))
  {
    var t := Next(s, Advance(pid, outcome));
    var e := AdvanceLogs(s, pid, outcome);
    forall k | k in t.cluster.secrets && t.cluster.secrets[k].owner.Some?
      ensures HandedOut(t.log, k, t.cluster.secrets[k].owner.value)
    {
      RequestsChangeOneName(s.cluster, e.call, outcome, k);
      HandedOutStays(s.log, e, k, t.cluster.secrets[k].owner.value);
    }
    forall q | q in t.calls && t.calls[q].Adopting? ensures HandedOut(t.log, Target(t.calls[q]), t.calls[q].uid) {
      if q == pid {
        assert t.log[|s.log|] == e;
      } else {
        HandedOutStays(s.log, e, Target(t.calls[q]), t.calls[q].uid);
      }
    }
  }

  lemma StepKeepsOwners(s: System, step: Step)
    requires UidsGrow(s) && OwnersHandedOut(s)
    ensures UidsGrow(Next(s, step)) && OwnersHandedOut(Next(s, step))
  {
    match step
    case Begin(_, _) =>
    case Advance(pid, outcome) =>
      if InFlight(s, pid) {
        AdvanceGrowsUids(s, pid, outcome);
        AdvanceKeepsOwners(s, pid, outcome);
      }
    case Crash(_) =>
    case Environment(move) =>
      forall k ensures Aged(s.cluster, Apply(s.cluster, move), k) { MovesAge(s.cluster, [move], k); }
  }

  lemma {:induction false} ExecutionKeepsOwners(s: System, steps: seq<Step>)
    requires UidsGrow(s) && OwnersHandedOut(s)
    ensures UidsGrow(Execute(s, steps)) && OwnersHandedOut(Execute(s, steps))
    decreases |steps|
  {
    if steps == [] {
    } else {
      StepKeepsOwners(s, steps[0]);
      ExecutionKeepsOwners(Next(s, steps[0]), steps[1..]);
    }
  }

  /** Ownership safety: in every state that any mix of Run, Delete and Replace calls can
      reach, a Secret is owned by nobody or by a UID that a Create answered with for that
      very name, and no UID is handed out for two names. */
  lemma OwnersAreOwn(s: System, steps: seq<Step>, k: Key, k': Key, uid: Uid)
    requires Fresh(s) && forall k | k in s.cluster.secrets :: s.cluster.secrets[k].owner.None?
    ensures var t := Execute(s, steps);
            && (k in t.cluster.secrets && t.cluster.secrets[k].owner.Some? ==>
                  HandedOut(t.log, k, t.cluster.secrets[k].owner.value))
            && (HandedOut(t.log, k, uid) && HandedOut(t.log, k', uid) ==> k == k')
  {
    ExecutionKeepsOwners(s, steps);
    var t := Execute(s, steps);
    if HandedOut(t.log, k, uid) && HandedOut(t.log, k', uid) {
      var i :| 0 <= i < |t.log| && t.log[i].call.CreateJob? && t.log[i].call.key == k && t.log[i].reply == Created(uid);
      var j :| 0 <= j < |t.log| && t.log[j].call.CreateJob? && t.log[j].call.key == k' && t.log[j].reply == Created(uid);
      assert i == j;
    }
  }

  // ---------------------------------------------------------------- One call alone

  ghost function Moving(moves: seq<Move>): seq<Step> {
    if moves == [] then [] else [Environment(moves[0])] + Moving(moves[1..])
  }

  /** The steps of the whole system in which the call pid, at p, lives through the turns. */
  ghost function StepsOf(c: Cluster, p: CallState, turns: seq<Turn>, pid: Pid): seq<Step>
    decreases |turns|
  {
    if turns == [] || p.Returned? then []
    else
      var (c', p') := TakeTurn(c, p, turns[0]);
      Moving(turns[0].moves) + [Advance(pid, turns[0].outcome)] + StepsOf(c', p', turns[1..], pid)
  }

  lemma {:induction false} ExecuteInTwo(s: System, first: seq<Step>, second: seq<Step>)
    ensures Execute(s, first + second) == Execute(Execute(s, first), second)
    decreases |first|
  {
    if first == [] {
      assert first + second == second;
    } else {
      assert first + second == [first[0]] + (first[1..] + second);
      ExecuteInTwo(Next(s, first[0]), first[1..], second);
    }
  }

  lemma ExecuteInThree(s: System, first: seq<Step>, step: Step, rest: seq<Step>)
    ensures Execute(s, first + [step] + rest) == Execute(Next(Execute(s, first), step), rest)
  {
    assert first + [step] + rest == first + ([step] + rest);
    ExecuteInTwo(s, first, [step] + rest);
    assert ([step] + rest)[1..] == rest;
  }

  lemma {:induction false} MovingMoves(s: System, moves: seq<Move>)
    ensures Execute(s, Moving(moves)) == s.(cluster := ApplyAll(s.cluster, moves))
    decreases |moves|
  {
    if moves == [] {
    } else {
      assert Moving(moves)[1..] == Moving(moves[1..]);
      MovingMoves(Next(s, Moving(moves)[0]), moves[1..]);
    }
  }

  /** A call driven alone, as the methods of JobRunner drive it, is one execution of the
      whole system: what holds of all executions holds of it. */
  lemma {:induction false} AloneIsOneExecution(s: System, pid: Pid, turns: seq<Turn>)
    requires pid in s.calls
    ensures var t := Execute(s, StepsOf(s.cluster, s.calls[pid], turns, pid));
            && pid in t.calls && (t.cluster, t.calls[pid]) == Drive(s.cluster, s.calls[pid], turns)
            && t.calls == s.calls[pid := t.calls[pid]]
    decreases |turns|
  {
    var p := s.calls[pid];
    if turns == [] || p.Returned? {
    } else {
      var (c', p') := TakeTurn(s.cluster, p, turns[0]);
      var advance := Advance(pid, turns[0].outcome);
      var rest := StepsOf(c', p', turns[1..], pid);
      MovingMoves(s, turns[0].moves);
      var t := Next(Execute(s, Moving(turns[0].moves)), advance);
      assert t.cluster == c' && t.calls[pid] == p';
      AloneIsOneExecution(t, pid, turns[1..]);
      ExecuteInThree(s, Moving(turns[0].moves), advance, rest);
    }
  }
}
