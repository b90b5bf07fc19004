/** The error classes of client/kubernetes.go. */
module Kubernetes {
  import opened Errors

  /** What the API machinery reports a failed request as. */
  datatype ApiClass = NotFound | AlreadyExists | Conflict | Invalid | Other

  datatype ApiFailure = ApiFailure(class_: ApiClass, text: string)

  function SentinelOf(c: ApiClass): Sentinel {
    match c
    case NotFound => ResourceNotFound
    case AlreadyExists | Conflict => ResourceConflict
    case Invalid => ResourceInvalid
    case Other => KubernetesRequestFailed
  }

  /** wrapK8sError: the sentinel is wrapped, the API error survives as text only. */
  function WrapK8sError(f: ApiFailure): Error {
    if f.class_ == NotFound then Wrap("", Leaf(ResourceNotFound), ": " + f.text)
    else if f.class_ == AlreadyExists || f.class_ == Conflict then Wrap("", Leaf(ResourceConflict), ": " + f.text)
    else if f.class_ == Invalid then Wrap("", Leaf(ResourceInvalid), ": " + f.text)
    else Wrap("", Leaf(KubernetesRequestFailed), ": " + f.text)
  }

  /** A wrapped API error matches one sentinel, the one of its class. */
  lemma WrappedHasOneSentinel(f: ApiFailure, s: Sentinel)
    ensures Is(WrapK8sError(f), s) <==> s == SentinelOf(f.class_)
    ensures Leaves(WrapK8sError(f)) == {SentinelOf(f.class_)}
    ensures f.class_ == NotFound ==> SentinelOf(f.class_) == ResourceNotFound
    ensures f.class_ in {AlreadyExists, Conflict} ==> SentinelOf(f.class_) == ResourceConflict
    ensures f.class_ == Invalid ==> SentinelOf(f.class_) == ResourceInvalid
    ensures f.class_ == Other ==> SentinelOf(f.class_) == KubernetesRequestFailed
  {
  }

  /** Its text is that sentinel's before the API's own. */
  lemma WrappedKeepsTheText(f: ApiFailure)
    ensures Errors.Text(WrapK8sError(f)) == SentinelOf(f.class_).Text() + ": " + f.text
  {
    var e := WrapK8sError(f);
    assert e == Wrap("", Leaf(SentinelOf(f.class_)), ": " + f.text);
    assert Errors.Text(e) == "" + SentinelOf(f.class_).Text() + (": " + f.text);
  }
}
