/** Secret values stay in the Secret: nothing else a call does depends on them. */
module Confidentiality {
  import opened Common
  import opened JobObjects
  import opened Kubernetes
  import opened Clusters
  import opened JobProtocol

  predicate SameSecretButValues(a: Secret, b: Secret) {
    a.owner == b.owner && a.manifest.data.Keys == b.manifest.data.Keys &&
    a.manifest.(data := b.manifest.data) == b.manifest
  }

  /** The clusters differ in nothing but the values inside Secrets. */
  ghost predicate SameButValues(c: Cluster, d: Cluster) {
    && c.jobs == d.jobs && c.nextUid == d.nextUid && c.secrets.Keys == d.secrets.Keys
    && forall k | k in c.secrets :: SameSecretButValues(c.secrets[k], d.secrets[k])
  }

  predicate SameGoalButValues(g: Goal, h: Goal) {
    match (g, h)
    case (Remove(n), Remove(m)) => n == m
    case (Redispatch(s), Redispatch(t)) => SameButSecretValues(s, t)
    case _ => false
  }

  predicate SameCallButValues(p: CallState, q: CallState) {
    match (p, q)
    case (CreatingSecret(n, s), CreatingSecret(m, t)) => n == m && SameButSecretValues(s, t)
    case (CreatingJob(n, s), CreatingJob(m, t)) => n == m && SameButSecretValues(s, t)
    case (Adopting(n, s, u), Adopting(m, t, v)) => n == m && u == v && SameButSecretValues(s, t)
    case (DeletingJob(n, g), DeletingJob(m, h)) => n == m && SameGoalButValues(g, h)
    case (DeletingSecret(n, g), DeletingSecret(m, h)) => n == m && SameGoalButValues(g, h)
    case (Returned(e), Returned(f)) => e == f
    case _ => false
  }

  lemma {:induction false} MovesIgnoreValues(c: Cluster, d: Cluster, moves: seq<Move>)
    requires SameButValues(c, d)
    ensures SameButValues(ApplyAll(c, moves), ApplyAll(d, moves))
    decreases |moves|
  {
    if moves == [] {
    } else {
      assert Enabled(c, moves[0]) == Enabled(d, moves[0]);
      MovesIgnoreValues(Apply(c, moves[0]), Apply(d, moves[0]), moves[1..]);
    }
  }

  /** The requests ask for the same, but for the values in a Secret to be created. */
  ghost predicate SameRequestButValues(a: Call, b: Call) {
    a == b || (a.CreateSecret? && b.CreateSecret? && a.key == b.key &&
               SameSecretButValues(Secret(a.secret, None), Secret(b.secret, None)))
  }

  lemma CallsAskTheSame(p: CallState, q: CallState)
    requires SameCallButValues(p, q) && !p.Returned?
    ensures SameRequestButValues(Request(p), Request(q))
  {
    if p.CreatingJob? {
      JobHidesSecretValues(p.spec, q.spec, p.namespace);
    }
  }

  lemma SecretEffectsIgnoreValues(c: Cluster, d: Cluster, a: Call, b: Call)
    requires SameButValues(c, d) && SameRequestButValues(a, b) && Accepts(c, a) && Accepts(d, b)
    requires a.CreateSecret? || a.AdoptSecret? || a.DeleteSecret?
    ensures SameButValues(Effect(c, a), Effect(d, b))
  {
    var c', d' := Effect(c, a), Effect(d, b);
    assert c'.secrets.Keys == d'.secrets.Keys;
    forall k | k in c'.secrets ensures SameSecretButValues(c'.secrets[k], d'.secrets[k]) {
      assert k != a.key ==> c'.secrets[k] == c.secrets[k] && d'.secrets[k] == d.secrets[k];
    }
  }

  lemma EffectsIgnoreValues(c: Cluster, d: Cluster, a: Call, b: Call)
    requires SameButValues(c, d) && SameRequestButValues(a, b) && Accepts(c, a) && Accepts(d, b)
    ensures SameButValues(Effect(c, a), Effect(d, b))
  {
    if a.CreateSecret? || a.AdoptSecret? || a.DeleteSecret? {
      SecretEffectsIgnoreValues(c, d, a, b);
    }
  }

  lemma ClaimsIgnoreValues(c: Cluster, d: Cluster, a: Call, b: Call, class_: ApiClass)
    requires SameButValues(c, d) && SameRequestButValues(a, b)
    ensures Honest(c, a, class_) <==> Honest(d, b, class_)
  {
  }

  lemma RequestsIgnoreValues(c: Cluster, d: Cluster, a: Call, b: Call, outcome: Outcome)
    requires SameButValues(c, d) && SameRequestButValues(a, b)
    ensures SameButValues(Serve(c, a, outcome).0, Serve(d, b, outcome).0)
    ensures Serve(c, a, outcome).1 == Serve(d, b, outcome).1
  {
    assert Accepts(c, a) == Accepts(d, b);
    if Accepts(c, a) {
      EffectsIgnoreValues(c, d, a, b);
    }
    if outcome.Faulty? {
      ClaimsIgnoreValues(Serve(c, a, outcome).0, Serve(d, b, outcome).0, a, b, outcome.class_);
    }
  }

  lemma RepliesIgnoreValues(p: CallState, q: CallState, reply: Reply)
    requires SameCallButValues(p, q) && !p.Returned?
    ensures SameCallButValues(Resume(p, reply), Resume(q, reply))
  {
    if p.CreatingJob? || p.CreatingSecret? {
      assert |p.spec.secrets| == |p.spec.secrets.Keys| == |q.spec.secrets|;
    } else if p.DeletingSecret? && p.goal.Redispatch? {
      assert |p.goal.spec.secrets| == |p.goal.spec.secrets.Keys| == |q.goal.spec.secrets|;
    }
  }

  /** Value independence end to end: two calls whose specs differ in secret values alone,
      made under the same faults and moves, send the same Jobs, take the same branches,
      return the same error, and leave clusters that differ in those values alone. */
  lemma {:induction false} SecretValuesStayInTheSecret(c: Cluster, d: Cluster, p: CallState, q: CallState, turns: seq<Turn>)
    requires SameButValues(c, d) && SameCallButValues(p, q)
    ensures SameButValues(Drive(c, p, turns).0, Drive(d, q, turns).0)
    ensures SameCallButValues(Drive(c, p, turns).1, Drive(d, q, turns).1)
    decreases |turns|
  {
    if turns == [] || p.Returned? {
    } else {
      var (c', p') := TakeTurn(c, p, turns[0]);
      var (d', q') := TakeTurn(d, q, turns[0]);
      MovesIgnoreValues(c, d, turns[0].moves);
      CallsAskTheSame(p, q);
      RequestsIgnoreValues(ApplyAll(c, turns[0].moves), ApplyAll(d, turns[0].moves), Request(p), Request(q), turns[0].outcome);
      RepliesIgnoreValues(p, q, Serve(ApplyAll(c, turns[0].moves), Request(p), turns[0].outcome).1);
      SecretValuesStayInTheSecret(c', d', p', q', turns[1..]);
    }
  }
}
