/** The retry path: polling with Replace until a terminating Job is out of the way. */
module Retrying {
  import opened Common
  import opened JobObjects
  import opened Clusters
  import opened JobProtocol
  import opened Aging
  import opened SequentialCalls

  /** A call with its turns, complete or crashed, and what the cluster does afterwards. */
  datatype Episode = Episode(start: CallState, turns: seq<Turn>, after: seq<Move>)

  ghost function History(c: Cluster, episodes: seq<Episode>): Cluster
    decreases |episodes|
  {
    if episodes == [] then c
    else History(ApplyAll(Drive(c, episodes[0].start, episodes[0].turns).0, episodes[0].after), episodes[1..])
  }

  /** A beginning of Run, Delete or Replace on the name k. */
  predicate Starts(p: CallState, k: Key) {
    !p.Returned? && Target(p) == k && !p.Adopting?
  }

  /** While the Job with the old UID is still there, no other has been created since c0;
      and nobody has put the Secret under it. */
  ghost predicate Outlasts(c0: Cluster, c: Cluster, p: CallState, k: Key, old_: Uid) {
    && old_ < c0.nextUid <= c.nextUid
    && (k in c.jobs && c.jobs[k].uid == old_ ==> c.nextUid == c0.nextUid)
    && (k in c.secrets && c.secrets[k].owner == Some(old_) ==> k in c0.secrets && c0.secrets[k] == c.secrets[k])
    && (p.Returned? || Target(p) == k)
    && (p.Adopting? ==> p.uid != old_)
  }

  lemma RequestOutlasts(c0: Cluster, c: Cluster, p: CallState, k: Key, old_: Uid, outcome: Outcome)
    requires Outlasts(c0, c, p, k, old_) && !p.Returned?
    ensures var (d, reply) := Serve(c, Request(p), outcome); Outlasts(c0, d, Resume(p, reply), k, old_)
  {
    RepliesInform(c, Request(p), outcome);
  }

  lemma {:induction false} DriveOutlasts(c0: Cluster, c: Cluster, p: CallState, k: Key, old_: Uid, turns: seq<Turn>)
    requires Outlasts(c0, c, p, k, old_)
    ensures var (d, q) := Drive(c, p, turns); Outlasts(c0, d, q, k, old_)
    decreases |turns|
  {
    if turns == [] || p.Returned? {
    } else {
      var (c', p') := TakeTurn(c, p, turns[0]);
      MovesAge(c, turns[0].moves, k);
      RequestOutlasts(c0, ApplyAll(c, turns[0].moves), p, k, old_, turns[0].outcome);
      DriveOutlasts(c0, c', p', k, old_, turns[1..]);
    }
  }

  /** Over any history of calls on a name, with any faults, crashes and moves: as long as
      the Job that was there first still exists, even terminating, no second Job has been
      created, and the Secret is owned by it only if it always was. */
  lemma {:induction false} OldJobIsNeverJoined(c0: Cluster, c: Cluster, episodes: seq<Episode>, k: Key, old_: Uid)
    requires forall e | e in episodes :: Starts(e.start, k)
    requires Outlasts(c0, c, Returned(None), k, old_)
    ensures Outlasts(c0, History(c, episodes), Returned(None), k, old_)
    decreases |episodes|
  {
    if episodes == [] {
    } else {
      var e := episodes[0];
      assert e in episodes;
      DriveOutlasts(c0, c, e.start, k, old_, e.turns);
      var d := Drive(c, e.start, e.turns).0;
      MovesAge(d, e.after, k);
      OldJobIsNeverJoined(c0, ApplyAll(d, e.after), episodes[1..], k, old_);
    }
  }

  lemma SmoothReplace(c: Cluster, namespace: string, spec: JobSpec)
    ensures Drive(c, StartReplace(namespace, spec), [SMOOTH, SMOOTH] + [SMOOTH, SMOOTH, SMOOTH]) ==
            (Dispatched(Deleted(c, Key(namespace, spec.name)), namespace, spec), Returned(None))
  {
    SmoothDelete(c, namespace, Redispatch(spec));
    DriveInTwo(c, StartReplace(namespace, spec), [SMOOTH, SMOOTH], [SMOOTH, SMOOTH, SMOOTH]);
    SmoothRun(Deleted(c, Key(namespace, spec.name)), namespace, spec);
  }

  predicate Dying(c: Cluster, k: Key) {
    k in c.jobs && c.jobs[k].terminating
  }

  lemma DyingUntilItVanishes(c: Cluster, moves: seq<Move>, k: Key)
    requires Dying(c, k)
    ensures Vanish(k) !in moves ==> Dying(ApplyAll(c, moves), k)
  {
    MovesTake(c, moves, k);
    MovesAge(c, moves, k);
  }

  lemma {:induction false} VanishTakesTheDying(c: Cluster, moves: seq<Move>, k: Key)
    requires Dying(c, k) && Vanish(k) in moves
    ensures k !in ApplyAll(c, moves).jobs
    decreases |moves|
  {
    var c' := Apply(c, moves[0]);
    assert moves == [moves[0]] + moves[1..];
    if moves[0] == Vanish(k) {
      MovesAge(c', moves[1..], k);
    } else {
      assert ApplyAll(c, [moves[0]]) == c';
      DyingUntilItVanishes(c, [moves[0]], k);
      VanishTakesTheDying(c', moves[1..], k);
    }
  }

  /** Nothing has come of the calls since c0 while the Job was dying: it is still that Job,
      no UID was handed out, no call got as far as a patch, and an owner is one of before. */
  ghost predicate Waited(c0: Cluster, c: Cluster, p: CallState, k: Key) {
    && Dying(c, k) && k in c0.jobs && JobAged(c0.jobs[k], c.jobs[k]) && c.nextUid == c0.nextUid
    && (k in c.secrets && c.secrets[k].owner.Some? ==> k in c0.secrets && c.secrets[k] == c0.secrets[k])
    && (p.Returned? || (Target(p) == k && !p.Adopting?))
  }

  lemma RequestsWait(c0: Cluster, c: Cluster, p: CallState, k: Key, outcome: Outcome)
    requires Waited(c0, c, p, k) && !p.Returned?
    ensures var (d, reply) := Serve(c, Request(p), outcome); Waited(c0, d, Resume(p, reply), k)
  {
  }

  lemma {:induction false} CallsWait(c0: Cluster, c: Cluster, p: CallState, k: Key, turns: seq<Turn>)
    requires Waited(c0, c, p, k) && Vanish(k) !in MovesMade(c, p, turns)
    ensures var (d, q) := Drive(c, p, turns); Waited(c0, d, q, k)
    decreases |turns|
  {
    if turns == [] || p.Returned? {
    } else {
      var (c', p') := TakeTurn(c, p, turns[0]);
      DyingUntilItVanishes(c, turns[0].moves, k);
      MovesAge(c, turns[0].moves, k);
      RequestsWait(c0, ApplyAll(c, turns[0].moves), p, k, turns[0].outcome);
      CallsWait(c0, c', p', k, turns[1..]);
    }
  }

  /** No move of the history takes the Job k away. */
  ghost predicate NeverVanishes(c: Cluster, episodes: seq<Episode>, k: Key)
    decreases |episodes|
  {
    episodes == [] ||
    (var e := episodes[0];
     && Vanish(k) !in MovesMade(c, e.start, e.turns) && Vanish(k) !in e.after
     && NeverVanishes(ApplyAll(Drive(c, e.start, e.turns).0, e.after), episodes[1..], k))
  }

  lemma {:induction false} HistoriesWait(c0: Cluster, c: Cluster, episodes: seq<Episode>, k: Key)
    requires forall e | e in episodes :: Starts(e.start, k)
    requires Waited(c0, c, Returned(None), k) && NeverVanishes(c, episodes, k)
    ensures Waited(c0, History(c, episodes), Returned(None), k)
    decreases |episodes|
  {
    if episodes == [] {
    } else {
      var e := episodes[0];
      assert e in episodes;
      CallsWait(c0, c, e.start, k, e.turns);
      var d := Drive(c, e.start, e.turns).0;
      DyingUntilItVanishes(d, e.after, k);
      MovesAge(d, e.after, k);
      HistoriesWait(c0, ApplyAll(d, e.after), episodes[1..], k);
    }
  }

  lemma {:induction false} HistoryOneMore(c: Cluster, episodes: seq<Episode>, e: Episode)
    ensures History(c, episodes + [e]) == ApplyAll(Drive(History(c, episodes), e.start, e.turns).0, e.after)
    decreases |episodes|
  {
    if episodes == [] {
      assert [e][1..] == [];
      assert History(ApplyAll(Drive(c, e.start, e.turns).0, e.after), []) ==
             ApplyAll(Drive(c, e.start, e.turns).0, e.after);
    } else {
      HistoryOneMore(ApplyAll(Drive(c, episodes[0].start, episodes[0].turns).0, episodes[0].after), episodes[1..], e);
      assert (episodes + [e])[1..] == episodes[1..] + [e];
    }
  }

  lemma {:induction false} NeverVanishesBefore(c: Cluster, episodes: seq<Episode>, e: Episode, k: Key)
    requires NeverVanishes(c, episodes + [e], k)
    ensures NeverVanishes(c, episodes, k)
    ensures Vanish(k) !in MovesMade(History(c, episodes), e.start, e.turns) && Vanish(k) !in e.after
    decreases |episodes|
  {
    if episodes == [] {
    } else {
      assert (episodes + [e])[1..] == episodes[1..] + [e];
      NeverVanishesBefore(ApplyAll(Drive(c, episodes[0].start, episodes[0].turns).0, episodes[0].after), episodes[1..], e, k);
    }
  }

  /** A Replace that returns nil while the old Job is dying leaves its own Secret, unowned,
      if it leaves one: it is there exactly if its create was not misread. */
  lemma ReplaceWhileWaiting(c: Cluster, namespace: string, spec: JobSpec, turns: seq<Turn>, after: seq<Move>)
    requires var k, p := Key(namespace, spec.name), StartReplace(namespace, spec);
             && Dying(c, k) && c.jobs[k].uid < c.nextUid
             && Drive(c, p, turns).1 == Returned(None)
             && Vanish(k) !in MovesMade(c, p, turns)
    ensures var k, d := Key(namespace, spec.name), ApplyAll(Drive(c, StartReplace(namespace, spec), turns).0, after);
            && NoOtherSecret(d, namespace, spec)
            && (k in d.secrets <==> spec.secrets != map[] && !Misreads(c, StartReplace(namespace, spec), turns).secret)
  {
    var k, p := Key(namespace, spec.name), StartReplace(namespace, spec);
    CallsWait(c, c, DeletingJob(namespace, Redispatch(spec)), k, turns);
    ReplaceRefreshes(c, namespace, spec, turns);
    MovesAge(Drive(c, p, turns).0, after, k);
  }

  /** The same at the end of any such history: if the last call that waits is a Replace and
      returns nil, a Secret there is its own, unowned, and it is there exactly if its create
      was not misread. */
  lemma LastReplaceRefreshes(c: Cluster, namespace: string, spec: JobSpec, earlier: seq<Episode>, e: Episode)
    requires Dying(c, Key(namespace, spec.name)) && c.jobs[Key(namespace, spec.name)].uid < c.nextUid
    requires forall e' | e' in earlier :: Starts(e'.start, Key(namespace, spec.name))
    requires NeverVanishes(c, earlier + [e], Key(namespace, spec.name))
    requires e.start == StartReplace(namespace, spec) && Drive(History(c, earlier), e.start, e.turns).1 == Returned(None)
    ensures var k, d := Key(namespace, spec.name), History(c, earlier + [e]);
            && NoOtherSecret(d, namespace, spec)
            && (k in d.secrets <==> spec.secrets != map[] && !Misreads(History(c, earlier), e.start, e.turns).secret)
  {
    var k := Key(namespace, spec.name);
    HistoryOneMore(c, earlier, e);
    NeverVanishesBefore(c, earlier, e, k);
    HistoriesWait(c, c, earlier, k);
    ReplaceWhileWaiting(History(c, earlier), namespace, spec, e.turns, e.after);
  }

  /** Retry progress. While the old Job is dying, any calls on its name, smooth or faulty,
      complete or crashed, and any moves but its vanishing, change nothing about Jobs and
      UIDs and put the Secret under nobody. The first smooth Replace after it vanished
      dispatches a Job with a fresh UID that owns a Secret with this spec's data. */
  lemma RetryProgress(c: Cluster, namespace: string, spec: JobSpec, waiting: seq<Episode>, last: seq<Move>)
    requires Dying(c, Key(namespace, spec.name))
    requires forall e | e in waiting :: Starts(e.start, Key(namespace, spec.name))
    requires NeverVanishes(c, waiting, Key(namespace, spec.name)) && Vanish(Key(namespace, spec.name)) in last
    ensures Waited(c, History(c, waiting), Returned(None), Key(namespace, spec.name))
    ensures var k, vanished := Key(namespace, spec.name), ApplyAll(History(c, waiting), last);
            var (d, p) := Drive(vanished, StartReplace(namespace, spec), [SMOOTH, SMOOTH] + [SMOOTH, SMOOTH, SMOOTH]);
            && p == Returned(None)
            && k in d.jobs && d.jobs[k] == NewJob(c, namespace, spec) && d.nextUid == c.nextUid + 1
            && (k in d.secrets <==> spec.secrets != map[])
            && (k in d.secrets ==> d.secrets[k] == Secret(BuildJobSecret(spec, namespace), Some(c.nextUid)))
  {
    var k := Key(namespace, spec.name);
    HistoriesWait(c, c, waiting, k);
    VanishTakesTheDying(History(c, waiting), last, k);
    MovesAge(History(c, waiting), last, k);
    SmoothReplace(ApplyAll(History(c, waiting), last), namespace, spec);
  }
}
