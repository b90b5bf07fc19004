/** What the cluster can do to one name on its own. */
module Aging {
  import opened JobStatuses
  import opened Clusters

  ghost predicate JobAged(a: Job, b: Job) {
    && b.uid == a.uid && b.manifest == a.manifest
    && (a.terminating ==> b.terminating)
    && (Finished(a.status) ==> PhaseOf(b.status) == PhaseOf(a.status))
  }

  /** Left to itself from c to d, a Job keeps its identity, its manifest and its verdict and
      never comes back to life; a Secret stays as it is, and goes only once its owner has. */
  ghost predicate Aged(c: Cluster, d: Cluster, k: Key) {
    && (k in d.jobs ==> k in c.jobs && JobAged(c.jobs[k], d.jobs[k]))
    && (k in d.secrets ==> k in c.secrets && d.secrets[k] == c.secrets[k])
    && (k in c.secrets && k !in d.secrets ==>
          c.secrets[k].owner.Some? && !d.LiveAs(k, c.secrets[k].owner.value))
  }

  lemma AgedTwice(c: Cluster, d: Cluster, e: Cluster, k: Key)
    requires Aged(c, d, k) && Aged(d, e, k)
    ensures Aged(c, e, k)
  {
  }

  lemma MoveAges(c: Cluster, move: Move, k: Key)
    ensures Aged(c, Apply(c, move), k) && Apply(c, move).nextUid == c.nextUid
  {
    if move.Progress? && Enabled(c, move) && Finished(c.jobs[move.key].status) {
      PhaseLasts(c.jobs[move.key].status, move.status);
    }
  }

  lemma {:induction false} MovesAge(c: Cluster, moves: seq<Move>, k: Key)
    ensures Aged(c, ApplyAll(c, moves), k) && ApplyAll(c, moves).nextUid == c.nextUid
    decreases |moves|
  {
    if moves == [] {
    } else {
      MoveAges(c, moves[0], k);
      MovesAge(Apply(c, moves[0]), moves[1..], k);
      AgedTwice(c, Apply(c, moves[0]), ApplyAll(c, moves), k);
    }
  }

  lemma {:induction false} MovesInTwo(c: Cluster, first: seq<Move>, second: seq<Move>)
    ensures ApplyAll(c, first + second) == ApplyAll(ApplyAll(c, first), second)
    decreases |first|
  {
    if first == [] {
      assert first + second == second;
    } else {
      assert first + second == [first[0]] + (first[1..] + second);
      MovesInTwo(Apply(c, first[0]), first[1..], second);
    }
  }

  /** Only Vanish takes a Job away, and only Collect a Secret. */
  lemma {:induction false} MovesTake(c: Cluster, moves: seq<Move>, k: Key)
    ensures k in c.jobs && Vanish(k) !in moves ==> k in ApplyAll(c, moves).jobs
    ensures k in c.secrets && Collect(k) !in moves ==> k in ApplyAll(c, moves).secrets
    decreases |moves|
  {
    if moves == [] {
    } else {
      assert moves[0] in moves;
      MovesTake(Apply(c, moves[0]), moves[1..], k);
    }
  }

  /** Moves on Jobs do not depend on Secrets. */
  lemma {:induction false} JobsMoveAlone(c: Cluster, d: Cluster, moves: seq<Move>)
    requires c.jobs == d.jobs
    ensures ApplyAll(c, moves).jobs == ApplyAll(d, moves).jobs
    decreases |moves|
  {
    if moves == [] {
    } else {
      JobsMoveAlone(Apply(c, moves[0]), Apply(d, moves[0]), moves[1..]);
    }
  }

  /** Moves do to a name what that name alone decides. */
  lemma {:induction false} MovesStayLocal(c: Cluster, d: Cluster, moves: seq<Move>, k: Key)
    requires SameAt(c, d, k)
    ensures SameAt(ApplyAll(c, moves), ApplyAll(d, moves), k)
    decreases |moves|
  {
    if moves == [] {
    } else {
      MovesStayLocal(Apply(c, moves[0]), Apply(d, moves[0]), moves[1..], k);
    }
  }
}
