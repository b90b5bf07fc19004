/** Names, namespaces and identity labels of service Jobs: provider/servicejob.go,
    provider/backupjob.go and NamespaceForTeam of provider/base.go. */
module ServiceJobs {
  import opened Common
  import opened JobObjects
  import opened Clusters
  import opened JobProtocol
  import opened Aging
  import opened SequentialCalls

  const JOB_OP_BACKUP := "backup"
  const JOB_OP_DELETE_BACKUP := "delete-backup"
  const JOB_OP_RESTORE := "restore"
  const SERVICE_ID_LABEL := "managed-services.codesphere.com/id"
  const BACKUP_ID_LABEL := "managed-services.codesphere.com/backup-id"

  // ---------------------------------------------------------------- Names

  function ServiceJobName(operation: string, key: string): string {
    operation + "-" + key
  }

  function BackupJobName(backupId: string): string {
    ServiceJobName(JOB_OP_BACKUP, backupId)
  }

  function DeleteBackupJobName(backupId: string): string {
    ServiceJobName(JOB_OP_DELETE_BACKUP, backupId)
  }

  /** Two different (operation, key) pairs never share a name. */
  ghost predicate NamesAreUnique(operations: set<string>) {
    forall o, p, k, l | o in operations && p in operations && ServiceJobName(o, k) == ServiceJobName(p, l) :: o == p && k == l
  }

  /** No operation with its dash is a proper prefix of another. */
  predicate PrefixFree(operations: set<string>) {
    forall o, p | o in operations && p in operations :: !(o + "-" < p + "-")
  }

  lemma SameNameOrPrefix(o: string, k: string, p: string, l: string)
    requires ServiceJobName(o, k) == ServiceJobName(p, l) && |o| <= |p|
    ensures (o == p && k == l) || o + "-" < p + "-"
  {
    var name := ServiceJobName(o, k);
    assert name[..|o| + 1] == o + "-" && name[..|p| + 1] == p + "-";
    assert name[|o| + 1..] == k && name[|p| + 1..] == l;
    if |o| == |p| {
      assert o == name[..|o|] == p;
    } else {
      assert (p + "-")[..|o| + 1] == name[..|p| + 1][..|o| + 1] == o + "-";
    }
  }

  /** Unique job identity, exactly: the names of a set of operations are unique over all
      keys if and only if the set is prefix-free. */
  lemma NamesAreUniqueIff(operations: set<string>)
    ensures NamesAreUnique(operations) <==> PrefixFree(operations)
  {
    if PrefixFree(operations) {
      forall o, p, k, l | o in operations && p in operations && ServiceJobName(o, k) == ServiceJobName(p, l)
        ensures o == p && k == l
      {
        if |o| <= |p| { SameNameOrPrefix(o, k, p, l); } else { SameNameOrPrefix(p, l, o, k); }
      }
    } else {
      var o, p :| o in operations && p in operations && o + "-" < p + "-";
      var rest := (p + "-")[|o| + 1..];
      assert ServiceJobName(o, rest) == p + "-" == ServiceJobName(p, "");
    }
  }

  lemma BuiltInNamesAreUnique()
    ensures NamesAreUnique({JOB_OP_BACKUP, JOB_OP_DELETE_BACKUP, JOB_OP_RESTORE})
  {
    NamesAreUniqueIff({JOB_OP_BACKUP, JOB_OP_DELETE_BACKUP, JOB_OP_RESTORE});
    assert (JOB_OP_BACKUP + "-")[0] == 'b' && (JOB_OP_DELETE_BACKUP + "-")[0] == 'd' && (JOB_OP_RESTORE + "-")[0] == 'r';
  }

  /** A provider that adds its own "delete" operation loses uniqueness. */
  lemma OwnOperationsCanClash()
    ensures !NamesAreUnique({"delete", JOB_OP_DELETE_BACKUP})
    ensures ServiceJobName("delete", "backup-7") == DeleteBackupJobName("7")
  {
    assert ServiceJobName("delete", "backup-7") == ServiceJobName(JOB_OP_DELETE_BACKUP, "7");
  }

  /** The operation and key a built-in name was made of. */
  function DecodeJobName(name: string): Option<(string, string)> {
    if JOB_OP_BACKUP + "-" <= name then Some((JOB_OP_BACKUP, name[7..]))
    else if JOB_OP_DELETE_BACKUP + "-" <= name then Some((JOB_OP_DELETE_BACKUP, name[14..]))
    else if JOB_OP_RESTORE + "-" <= name then Some((JOB_OP_RESTORE, name[8..]))
    else None
  }

  lemma BuiltInNamesDecode(operation: string, key: string)
    requires operation in {JOB_OP_BACKUP, JOB_OP_DELETE_BACKUP, JOB_OP_RESTORE}
    ensures DecodeJobName(ServiceJobName(operation, key)) == Some((operation, key))
  {
    var n := ServiceJobName(operation, key);
    assert n == (operation + "-") + key && n[|operation| + 1..] == key && n[..|operation| + 1] == operation + "-";
    assert n[0] == operation[0];
    assert |JOB_OP_BACKUP| == 6 && |JOB_OP_DELETE_BACKUP| == 13 && |JOB_OP_RESTORE| == 7;
  }

  lemma NamesRoundTrip(operation: string, key: string, name: string)
    ensures operation in {JOB_OP_BACKUP, JOB_OP_DELETE_BACKUP, JOB_OP_RESTORE} ==>
              DecodeJobName(ServiceJobName(operation, key)) == Some((operation, key))
    ensures DecodeJobName(BackupJobName(key)) == Some((JOB_OP_BACKUP, key))
    ensures DecodeJobName(DeleteBackupJobName(key)) == Some((JOB_OP_DELETE_BACKUP, key))
    ensures DecodeJobName(name).Some? ==>
              ServiceJobName(DecodeJobName(name).value.0, DecodeJobName(name).value.1) == name
    ensures BackupJobName(key) == "backup-" + key && DeleteBackupJobName(key) == "delete-backup-" + key
    ensures ServiceJobName(JOB_OP_RESTORE, key) == "restore-" + key
  {
    BuiltInNamesDecode(JOB_OP_BACKUP, key);
    BuiltInNamesDecode(JOB_OP_DELETE_BACKUP, key);
    if operation in {JOB_OP_BACKUP, JOB_OP_DELETE_BACKUP, JOB_OP_RESTORE} {
      BuiltInNamesDecode(operation, key);
    }
  }

  // ---------------------------------------------------------------- Namespaces

  function Digit(d: nat): char
    requires d < 10
  {
    ('0' as int + d) as char
  }

  function Decimal(n: nat): string {
    if n < 10 then [Digit(n)] else Decimal(n / 10) + [Digit(n % 10)]
  }

  function Value(digits: string): int {
    if digits == "" then 0
    else 10 * Value(digits[..|digits| - 1]) + (digits[|digits| - 1] as int - '0' as int)
  }

  lemma {:induction false} DecimalRoundTrip(n: nat)
    ensures Value(Decimal(n)) == n && |Decimal(n)| > 0 && Decimal(n)[0] != '-'
  {
    if n < 10 {
      assert Decimal(n)[..0] == "";
    } else {
      DecimalRoundTrip(n / 10);
      assert Decimal(n)[..|Decimal(n)| - 1] == Decimal(n / 10);
    }
  }

  /** fmt.Sprintf("rg-%d", teamID) */
  function NamespaceForTeam(teamId: int): string {
    "rg-" + if teamId < 0 then "-" + Decimal(-teamId) else Decimal(teamId)
  }

  /** The namespace is "rg-" and the number in decimal, as %d writes it: digit by digit, the
      highest first, without leading zeros, and negative numbers with a sign. */
  lemma NamespaceIsDecimal(teamId: int)
    ensures teamId < 0 ==> NamespaceForTeam(teamId) == "rg--" + NamespaceForTeam(-teamId)[3..]
    ensures 0 <= teamId < 10 ==> NamespaceForTeam(teamId) == "rg-" + ["0123456789"[teamId]]
    ensures teamId >= 10 ==> NamespaceForTeam(teamId) == NamespaceForTeam(teamId / 10) + ["0123456789"[teamId % 10]]
  {
    if teamId < 0 {
      assert NamespaceForTeam(-teamId)[3..] == Decimal(-teamId);
      assert "rg--" == "rg-" + "-";
    } else {
      assert Digit(teamId % 10) == "0123456789"[teamId % 10];
    }
  }

  lemma NamespacesAreUnique(a: int, b: int)
    requires NamespaceForTeam(a) == NamespaceForTeam(b)
    ensures a == b
  {
    DecimalRoundTrip(if a < 0 then -a else a);
    DecimalRoundTrip(if b < 0 then -b else b);
    var x, y := NamespaceForTeam(a)[3..], NamespaceForTeam(b)[3..];
    assert x == if a < 0 then "-" + Decimal(-a) else Decimal(a);
    assert y == if b < 0 then "-" + Decimal(-b) else Decimal(b);
    assert a < 0 ==> x[1..] == Decimal(-a);
    assert b < 0 ==> y[1..] == Decimal(-b);
  }

  /** End to end: distinct (team, built-in operation, key) never meet in one Job or Secret. */
  lemma IdentitiesAreUnique(team: int, operation: string, key: string, team': int, operation': string, key': string)
    requires {operation, operation'} <= {JOB_OP_BACKUP, JOB_OP_DELETE_BACKUP, JOB_OP_RESTORE}
    ensures Key(NamespaceForTeam(team), ServiceJobName(operation, key)) ==
            Key(NamespaceForTeam(team'), ServiceJobName(operation', key'))
            <==> (team, operation, key) == (team', operation', key')
  {
    BuiltInNamesAreUnique();
    if NamespaceForTeam(team) == NamespaceForTeam(team') {
      NamespacesAreUnique(team, team');
    }
    assert operation in {operation, operation'} && operation' in {operation, operation'};
  }

  // ---------------------------------------------------------------- Labels

  datatype ServiceJob = ServiceJob(
    operation: string,
    msId: string,
    key: string,
    image: string,
    command: seq<string>,
    env: map<string, string>,
    secrets: map<string, string>,
    labels: map<string, string>,
    imagePullSecrets: seq<string>,
    resources: Resources)

  /** operationKeyLabels; absent operations map to "". */
  function OperationKeyLabel(operation: string): string {
    if operation == JOB_OP_BACKUP || operation == JOB_OP_DELETE_BACKUP then BACKUP_ID_LABEL else ""
  }

  function Label(labels: map<string, string>, l: string): Option<string> {
    if l in labels then Some(labels[l]) else None
  }

  /** The caller's labels, overlaid by the identity labels. */
  ghost predicate CarriesIdentity(j: ServiceJob, labels: map<string, string>) {
    forall l :: Label(labels, l) ==
      if l == "managed-services.codesphere.com/id" then Some(j.msId)
      else if l == "managed-services.codesphere.com/backup-id" && j.operation in {"backup", "delete-backup"} then Some(j.key)
      else Label(j.labels, l)
  }

  lemma LabelsDiffer()
    ensures SERVICE_ID_LABEL != BACKUP_ID_LABEL && BACKUP_ID_LABEL != ""
  {
    assert |SERVICE_ID_LABEL| != |BACKUP_ID_LABEL|;
  }

  method ServiceJobSpec(j: ServiceJob) returns (spec: JobSpec)
    ensures CarriesIdentity(j, spec.labels)
    ensures spec == JobSpec(j.operation + "-" + j.key, j.image, j.command, [], j.env, j.secrets, spec.labels,
                            j.imagePullSecrets, 0, 0, None, j.resources)
  {
    var labels: map<string, string> := map[];
    labels := labels + j.labels;
    labels := labels[SERVICE_ID_LABEL := j.msId];
    var keyLabel := OperationKeyLabel(j.operation);
    if keyLabel != "" {
      labels := labels[keyLabel := j.key];
    }
    LabelsDiffer();
    spec := JobSpec(ServiceJobName(j.operation, j.key), j.image, j.command, [], j.env, j.secrets, labels,
                    j.imagePullSecrets, 0, 0, None, j.resources);
  }

  /** Label authority end to end: whatever faults the dispatch of a service job meets,
      whatever moves and wherever it stops, a Job it creates, the Job's pods and a Secret it
      creates carry the caller's labels overlaid by the identity labels, whatever the caller
      put under those; and at a free name a smooth dispatch creates them. */
  lemma DispatchedLabels(j: ServiceJob, spec: JobSpec, c: Cluster, namespace: string, turns: seq<Turn>)
    requires CarriesIdentity(j, spec.labels) && spec.secrets == j.secrets && spec.name == ServiceJobName(j.operation, j.key)
    ensures var k, d := Key(namespace, ServiceJobName(j.operation, j.key)), Drive(c, StartRun(namespace, spec), turns).0;
            && (k in d.jobs && !(k in c.jobs && JobAged(c.jobs[k], d.jobs[k])) ==>
                  CarriesIdentity(j, d.jobs[k].manifest.labels) && CarriesIdentity(j, d.jobs[k].manifest.podLabels))
            && (k in d.secrets && !(k in c.secrets && d.secrets[k].manifest == c.secrets[k].manifest) ==>
                  CarriesIdentity(j, d.secrets[k].manifest.labels))
            && (k !in c.jobs && k !in c.secrets && turns == [SMOOTH, SMOOTH, SMOOTH] ==>
                  k in d.jobs && (k in d.secrets <==> j.secrets != map[]))
  {
    RunOnlyAdds(c, namespace, spec, turns);
    SmoothRun(c, namespace, spec);
  }
}
