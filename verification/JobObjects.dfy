/** The specs, manifests and builders of client/jobrunner.go. */
module JobObjects {
  import opened Common
  import opened Sorting

  datatype Resources = Resources(requests: map<string, string>, limits: map<string, string>)

  /** Durations are whole nanoseconds. */
  datatype JobSpec = JobSpec(
    name: string,
    image: string,
    command: seq<string>,
    args: seq<string>,
    env: map<string, string>,
    secrets: map<string, string>,
    labels: map<string, string>,
    imagePullSecrets: seq<string>,
    timeout: int,
    ttl: int,
    backoffLimit: Option<int>,
    resources: Resources)

  datatype SecretKeyRef = SecretKeyRef(name: string, key: string)

  datatype EnvVar = EnvVar(name: string, value: string, secretKeyRef: Option<SecretKeyRef>)

  datatype Container = Container(
    name: string,
    image: string,
    pullPolicy: string,
    command: seq<string>,
    args: seq<string>,
    env: seq<EnvVar>,
    resources: Resources)

  datatype JobManifest = JobManifest(
    name: string,
    namespace: string,
    labels: map<string, string>,
    ttlSeconds: int,
    deadlineSeconds: int,
    backoffLimit: int,
    podLabels: map<string, string>,
    restartPolicy: string,
    imagePullSecrets: Option<seq<string>>,
    container: Container)

  datatype SecretManifest = SecretManifest(
    name: string,
    namespace: string,
    labels: map<string, string>,
    data: map<string, string>)

  const SECOND := 1_000_000_000
  const DEFAULT_JOB_TIMEOUT := 6 * 3600 * SECOND
  const DEFAULT_JOB_TTL := 3600 * SECOND
  const DEFAULT_JOB_BACKOFF_LIMIT := 3
  const JOB_CONTAINER_NAME := "job"

  /** durationSeconds: whole seconds, rounded down; both operands are positive. */
  function DurationSeconds(d: int, fallback: int): int
    requires fallback > 0
  {
    (if d <= 0 then fallback else d) / SECOND
  }

  /** int32(x) of Go: the low 32 bits, read as two's complement. */
  function ToInt32(x: int): int {
    (x + 0x8000_0000) % 0x1_0000_0000 - 0x8000_0000
  }

  function PlainVar(m: map<string, string>, k: string): EnvVar {
    EnvVar(k, if k in m then m[k] else "", None)
  }

  function SecretVar(job: string, k: string): EnvVar {
    EnvVar(k, "", Some(SecretKeyRef(job, k)))
  }

  function PlainVars(m: map<string, string>, keys: seq<string>): seq<EnvVar> {
    seq(|keys|, i requires 0 <= i < |keys| => PlainVar(m, keys[i]))
  }

  function SecretVars(job: string, keys: seq<string>): seq<EnvVar> {
    seq(|keys|, i requires 0 <= i < |keys| => SecretVar(job, keys[i]))
  }

  /** What the container env means: plain variables, then references, each in order. */
  ghost function EnvFor(spec: JobSpec): seq<EnvVar> {
    PlainVars(spec.env, Ascending(spec.env.Keys)) + SecretVars(spec.name, Ascending(spec.secrets.Keys))
  }

  ghost function JobFor(spec: JobSpec, namespace: string): JobManifest {
    JobManifest(
      spec.name, namespace, spec.labels,
      ToInt32(DurationSeconds(spec.ttl, DEFAULT_JOB_TTL)),
      DurationSeconds(spec.timeout, DEFAULT_JOB_TIMEOUT),
      if spec.backoffLimit.Some? then spec.backoffLimit.value else DEFAULT_JOB_BACKOFF_LIMIT,
      spec.labels, "Never",
      if spec.imagePullSecrets == [] then None else Some(spec.imagePullSecrets),
      Container(JOB_CONTAINER_NAME, spec.image, "IfNotPresent", spec.command, spec.args,
                EnvFor(spec), spec.resources))
  }

  function BuildJobSecret(spec: JobSpec, namespace: string): SecretManifest {
    SecretManifest(spec.name, namespace, spec.labels, spec.secrets)
  }

  lemma OneMore<T>(before: seq<T>, s: seq<T>, i: nat)
    requires i < |s|
    ensures before + s[..i] + [s[i]] == before + s[..i + 1]
  {
  }

  method BuildEnv(spec: JobSpec) returns (out: seq<EnvVar>)
    ensures out == EnvFor(spec)
  {
    out := [];
    var keys := SortedKeys(spec.env);
    ghost var plain := PlainVars(spec.env, keys);
    for i := 0 to |keys|
      invariant out == [] + plain[..i]
    {
      OneMore([], plain, i);
      out := out + [PlainVar(spec.env, keys[i])];
    }
    keys := SortedKeys(spec.secrets);
    ghost var secret := SecretVars(spec.name, keys);
    for i := 0 to |keys|
      invariant out == plain + secret[..i]
    {
      OneMore(plain, secret, i);
      out := out + [SecretVar(spec.name, keys[i])];
    }
  }

  method ImagePullSecrets(names: seq<string>) returns (refs: Option<seq<string>>)
    ensures refs == if names == [] then None else Some(names)
  {
    if |names| == 0 {
      return None;
    }
    var a := new string[|names|];
    for i := 0 to |names|
      invariant a[..i] == names[..i]
    {
      a[i] := names[i];
    }
    assert a[..] == names;
    refs := Some(a[..]);
  }

  method BuildJob(spec: JobSpec, namespace: string) returns (job: JobManifest)
    ensures job == JobFor(spec, namespace)
  {
    var ttl := ToInt32(DurationSeconds(spec.ttl, DEFAULT_JOB_TTL));
    var deadline := DurationSeconds(spec.timeout, DEFAULT_JOB_TIMEOUT);
    var backoff := DEFAULT_JOB_BACKOFF_LIMIT;
    if spec.backoffLimit.Some? {
      backoff := spec.backoffLimit.value;
    }
    var pullSecrets := ImagePullSecrets(spec.imagePullSecrets);
    var env := BuildEnv(spec);
    job := JobManifest(spec.name, namespace, spec.labels, ttl, deadline, backoff, spec.labels, "Never", pullSecrets,
                       Container(JOB_CONTAINER_NAME, spec.image, "IfNotPresent", spec.command, spec.args, env,
                                 spec.resources));
  }

  /** The reader's view of an env list: the last entry of a name wins. */
  function Lookup(env: seq<EnvVar>, name: string): Option<EnvVar> {
    if env == [] then None
    else if env[|env| - 1].name == name then Some(env[|env| - 1])
    else Lookup(env[..|env| - 1], name)
  }

  lemma {:induction false} LookupFindsTheLast(env: seq<EnvVar>, name: string, i: nat)
    requires i < |env| && env[i].name == name && forall j | i < j < |env| :: env[j].name != name
    ensures Lookup(env, name) == Some(env[i])
  {
    if i == |env| - 1 {
    } else {
      LookupFindsTheLast(env[..|env| - 1], name, i);
    }
  }

  lemma {:induction false} LookupFindsNothing(env: seq<EnvVar>, name: string)
    requires forall j | 0 <= j < |env| :: env[j].name != name
    ensures Lookup(env, name) == None
  {
    if env == [] {
    } else {
      LookupFindsNothing(env[..|env| - 1], name);
    }
  }

  lemma EnvNames(spec: JobSpec)
    ensures var plain, secret, env := Ascending(spec.env.Keys), Ascending(spec.secrets.Keys), EnvFor(spec);
            && |plain| == |spec.env| && |secret| == |spec.secrets| && |env| == |plain| + |secret|
            && (forall i | 0 <= i < |plain| :: env[i] == PlainVar(spec.env, plain[i]))
            && (forall i | |plain| <= i < |env| :: env[i] == SecretVar(spec.name, secret[i - |plain|]))
  {
    assert |spec.env| == |spec.env.Keys| && |spec.secrets| == |spec.secrets.Keys|;
  }

  lemma EnvPartAscends(spec: JobSpec, i: nat, j: nat)
    requires i < j < |spec.env| || |spec.env| <= i < j < |EnvFor(spec)|
    ensures Precedes(EnvFor(spec)[i].name, EnvFor(spec)[j].name)
  {
    EnvNames(spec);
    BeforePrecedes(EnvFor(spec)[i].name, EnvFor(spec)[j].name);
  }

  /** The env is canonical: as many entries as variables, plain ones before references, and
      within each part a name comes before another if it is smaller where they first differ. */
  lemma EnvIsCanonical(spec: JobSpec)
    ensures var env := EnvFor(spec);
            && |env| == |spec.env| + |spec.secrets|
            && (forall i | 0 <= i < |env| :: env[i].secretKeyRef.Some? <==> i >= |spec.env|)
            && (forall i, j | 0 <= i < j < |spec.env| :: Precedes(env[i].name, env[j].name))
            && (forall i, j | |spec.env| <= i < j < |env| :: Precedes(env[i].name, env[j].name))
  {
    EnvNames(spec);
    forall i, j | 0 <= i < j < |spec.env| || |spec.env| <= i < j < |EnvFor(spec)|
      ensures Precedes(EnvFor(spec)[i].name, EnvFor(spec)[j].name)
    {
      EnvPartAscends(spec, i, j);
    }
  }

  lemma PositionOf(keys: seq<string>, k: string) returns (i: nat)
    requires k in keys && StrictlyAscending(keys)
    ensures i < |keys| && keys[i] == k && forall j | i < j < |keys| :: keys[j] != k
  {
    i :| 0 <= i < |keys| && keys[i] == k;
    forall j | i < j < |keys| ensures keys[j] != k { BeforeIsTotal(keys[i], keys[j]); }
  }

  /** The env is lossless: read back, it is Env overlaid by Secrets, and a secret's value
      appears nowhere in it. */
  lemma EnvReadsBack(spec: JobSpec, name: string)
    ensures Lookup(EnvFor(spec), name) ==
            if name in spec.secrets then Some(EnvVar(name, "", Some(SecretKeyRef(spec.name, name))))
            else if name in spec.env then Some(EnvVar(name, spec.env[name], None))
            else None
  {
    var env := EnvFor(spec);
    EnvNames(spec);
    if name in spec.secrets {
      var i := PositionOf(Ascending(spec.secrets.Keys), name);
      LookupFindsTheLast(env, name, |spec.env| + i);
    } else if name in spec.env {
      var i := PositionOf(Ascending(spec.env.Keys), name);
      LookupFindsTheLast(env, name, i);
    } else {
      LookupFindsNothing(env, name);
    }
  }

  /** The Secret keys the Job's env refers to. */
  function References(job: JobManifest): set<SecretKeyRef> {
    set i | 0 <= i < |job.container.env| && job.container.env[i].secretKeyRef.Some? ::
      job.container.env[i].secretKeyRef.value
  }

  /** Reference integrity: the Job's references are exactly the keys of its own Secret. */
  lemma ReferencesResolve(spec: JobSpec, namespace: string)
    ensures var job, secret := JobFor(spec, namespace), BuildJobSecret(spec, namespace);
            && job.name == secret.name && job.namespace == secret.namespace
            && forall r :: r in References(job) <==> r.name == secret.name && r.key in secret.data
  {
    var job := JobFor(spec, namespace);
    EnvNames(spec);
    forall r ensures r in References(job) <==> r.name == spec.name && r.key in spec.secrets {
      if r.name == spec.name && r.key in spec.secrets {
        var i := PositionOf(Ascending(spec.secrets.Keys), r.key);
        assert job.container.env[|spec.env| + i] == SecretVar(spec.name, r.key);
      }
    }
  }

  /** The specs differ in nothing but the values of their secrets. */
  predicate SameButSecretValues(a: JobSpec, b: JobSpec) {
    a.secrets.Keys == b.secrets.Keys && a.(secrets := b.secrets) == b
  }

  lemma JobHidesSecretValues(a: JobSpec, b: JobSpec, namespace: string)
    requires SameButSecretValues(a, b)
    ensures JobFor(a, namespace) == JobFor(b, namespace)
  {
    assert EnvFor(a) == EnvFor(b);
  }

  /** The deadline is always set, to the whole seconds of the timeout or six hours; it is
      never negative, and zero exactly if a positive timeout below one second was asked for. */
  lemma DeadlineIsZeroIff(spec: JobSpec, namespace: string)
    ensures var n := JobFor(spec, namespace).deadlineSeconds;
            && n >= 0
            && (if spec.timeout <= 0 then n == 21_600 else n * 1_000_000_000 <= spec.timeout < (n + 1) * 1_000_000_000)
            && (n == 0 <==> 0 < spec.timeout < 1_000_000_000)
  {
  }

  /** The TTL is that of the spec in whole seconds, or one hour, exactly below 2^31 seconds;
      beyond, it is the one 32-bit value that differs by a multiple of 2^32. */
  lemma TtlSurvivesTheCast(spec: JobSpec, namespace: string, seconds: int)
    requires if spec.ttl <= 0 then seconds == 3600 else seconds * 1_000_000_000 <= spec.ttl < (seconds + 1) * 1_000_000_000
    ensures var n := JobFor(spec, namespace).ttlSeconds;
            && (n == seconds <==> seconds < 0x8000_0000)
            && -0x8000_0000 <= n < 0x8000_0000 && (seconds - n) % 0x1_0000_0000 == 0
  {
    var n := JobFor(spec, namespace).ttlSeconds;
    assert seconds == DurationSeconds(spec.ttl, DEFAULT_JOB_TTL);
    var q := (seconds + 0x8000_0000) / 0x1_0000_0000;
    assert seconds - n == q * 0x1_0000_0000;
    if seconds < 0x8000_0000 {
      assert q == 0;
    }
  }

  /** Nothing of a spec is lost or misplaced: from the Job and its Secret a reader recovers
      every field, an unset backoff limit as 3. (Env is read back by EnvReadsBack, timeout and
      TTL by DeadlineIsZeroIff and TtlSurvivesTheCast.) No attempt is restarted in place. */
  lemma JobIsLossless(spec: JobSpec, namespace: string)
    ensures var job := JobFor(spec, namespace);
            && job.name == spec.name && job.namespace == namespace
            && job.labels == spec.labels && job.podLabels == spec.labels
            && job.restartPolicy == "Never"
            && (spec.imagePullSecrets == [] ==> job.imagePullSecrets == None)
            && (spec.imagePullSecrets != [] ==> job.imagePullSecrets == Some(spec.imagePullSecrets))
            && (spec.backoffLimit == None ==> job.backoffLimit == 3)
            && (spec.backoffLimit != None ==> spec.backoffLimit == Some(job.backoffLimit))
            && job.container.name == "job" && job.container.pullPolicy == "IfNotPresent"
            && job.container.image == spec.image && job.container.resources == spec.resources
            && job.container.command == spec.command && job.container.args == spec.args
    ensures var secret := BuildJobSecret(spec, namespace);
            && secret.name == spec.name && secret.namespace == namespace
            && secret.labels == spec.labels && secret.data == spec.secrets
  {
  }

  lemma PlainEnvIsKept(a: JobSpec, b: JobSpec, k: string)
    requires EnvFor(a) == EnvFor(b) && |a.secrets| == |b.secrets| && k in a.env
    ensures k in b.env && b.env[k] == a.env[k]
  {
    EnvNames(a);
    EnvNames(b);
    var i := PositionOf(Ascending(a.env.Keys), k);
    assert EnvFor(a)[i] == PlainVar(a.env, k);
    assert i < |a.env| == |b.env|;
  }

  /** Two specs that build the same Job and the same Secret are the same, but for what times
      are rounded and defaulted to and how a backoff limit of 3 was asked for. In particular
      even a plain variable is kept that a secret of the same name shadows. */
  lemma ManifestsTellSpecsApart(a: JobSpec, b: JobSpec, namespace: string)
    requires JobFor(a, namespace) == JobFor(b, namespace) && BuildJobSecret(a, namespace) == BuildJobSecret(b, namespace)
    ensures a == b.(timeout := a.timeout, ttl := a.ttl, backoffLimit := a.backoffLimit)
    ensures a.backoffLimit == b.backoffLimit || {a.backoffLimit, b.backoffLimit} == {None, Some(3)}
  {
    JobIsLossless(a, namespace);
    JobIsLossless(b, namespace);
    assert a.secrets == b.secrets && EnvFor(a) == EnvFor(b);
    forall k ensures k in a.env <==> k in b.env
             ensures k in a.env ==> a.env[k] == b.env[k]
    {
      if k in a.env { PlainEnvIsKept(a, b, k); }
      if k in b.env { PlainEnvIsKept(b, a, k); }
    }
    assert a.env == b.env;
  }
}
