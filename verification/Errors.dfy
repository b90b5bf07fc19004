/** Go errors as wrap trees of any depth, and the two ways the library reads them:
    errors.Is and Error(). */
module Errors {
  import opened Common

  /** The sentinel errors of client/kubernetes.go and provider/base.go. */
  datatype Sentinel =
    | ResourceNotFound
    | ResourceConflict
    | ResourceInvalid
    | KubernetesRequestFailed
    | ServiceNotFound
    | BackupNotFound
    | InvalidArgument
    | ServiceNotHealthy
    | NamespaceNotFound
    | NotImplemented
    | Busy
    | ServiceUnavailable
  {
    /** Infrastructure sentinels come from the Kubernetes client, the others from providers. */
    predicate Infrastructure() {
      ResourceNotFound? || ResourceConflict? || ResourceInvalid? || KubernetesRequestFailed?
    }

    function Text(): string {
      match this
      case ResourceNotFound => "resource not found"
      case ResourceConflict => "resource conflict"
      case ResourceInvalid => "resource invalid"
      case KubernetesRequestFailed => "kubernetes request failed"
      case ServiceNotFound => "service not found"
      case BackupNotFound => "backup not found"
      case InvalidArgument => "invalid argument"
      case ServiceNotHealthy => "service not healthy"
      case NamespaceNotFound => "namespace not found"
      case NotImplemented => "not implemented"
      case Busy => "conflict"
      case ServiceUnavailable => "service unavailable"
    }
  }

  /** Wrap is fmt.Errorf with one %w verb, Join is errors.Join, Plain any error that
      neither is a sentinel nor wraps one. */
  datatype Error =
    | Leaf(sentinel: Sentinel)
    | Plain(text: string)
    | Wrap(before: string, inner: Error, after: string)
    | Join(errs: seq<Error>)

  /** errors.Is for a sentinel target. */
  predicate Is(e: Error, s: Sentinel) {
    match e
    case Leaf(t) => t == s
    case Plain(_) => false
    case Wrap(_, inner, _) => Is(inner, s)
    case Join(errs) => exists i | 0 <= i < |errs| :: Is(errs[i], s)
  }

  /** errors.Is on a possibly nil error. */
  predicate Matches(err: Option<Error>, s: Sentinel) {
    err.Some? && Is(err.value, s)
  }

  /** Error(): the text a caller would see. */
  function Text(e: Error): string
    decreases e, 1
  {
    match e
    case Leaf(s) => s.Text()
    case Plain(text) => text
    case Wrap(before, inner, after) => before + Text(inner) + after
    case Join(errs) => JoinedText(errs)
  }

  function JoinedText(errs: seq<Error>): string
    decreases errs, 0
  {
    if errs == [] then ""
    else if |errs| == 1 then Text(errs[0])
    else Text(errs[0]) + "\n" + JoinedText(errs[1..])
  }

  /** The sentinels at the leaves of the tree. */
  function Leaves(e: Error): set<Sentinel> {
    match e
    case Leaf(s) => {s}
    case Plain(_) => {}
    case Wrap(_, inner, _) => Leaves(inner)
    case Join(errs) => set i, s | 0 <= i < |errs| && s in Leaves(errs[i]) :: s
  }

  lemma {:induction false} IsFindsExactlyTheLeaves(e: Error, s: Sentinel)
    ensures Is(e, s) <==> s in Leaves(e)
  {
    match e
    case Leaf(_) =>
    case Plain(_) =>
    case Wrap(_, inner, _) => IsFindsExactlyTheLeaves(inner, s);
    case Join(errs) =>
      forall i | 0 <= i < |errs| ensures Is(errs[i], s) <==> s in Leaves(errs[i]) {
        IsFindsExactlyTheLeaves(errs[i], s);
      }
  }

  /** Joined errors are told line by line. */
  lemma JoinsLineByLine(errs: seq<Error>)
    ensures |errs| == 1 ==> Text(Join(errs)) == Text(errs[0])
    ensures |errs| >= 2 ==> Text(Join(errs)) == Text(errs[0]) + "\n" + Text(Join(errs[1..]))
  {
  }

  /** The text of an error contains that of every sentinel it matches. */
  lemma {:induction false} LeafTextAppears(e: Error, s: Sentinel) returns (before: string, after: string)
    requires s in Leaves(e)
    ensures Text(e) == before + s.Text() + after
    decreases e, 1
  {
    match e
    case Leaf(_) => before, after := "", "";
    case Wrap(b, inner, a) =>
      var x, y := LeafTextAppears(inner, s);
      before, after := b + x, y + a;
      assert Text(e) == b + (x + s.Text() + y) + a;
    case Join(errs) =>
      var i :| 0 <= i < |errs| && s in Leaves(errs[i]);
      before, after := LeafTextAppearsIn(errs, i, s);
  }

  lemma {:induction false} LeafTextAppearsIn(errs: seq<Error>, i: nat, s: Sentinel) returns (before: string, after: string)
    requires i < |errs| && s in Leaves(errs[i])
    ensures JoinedText(errs) == before + s.Text() + after
    decreases errs, 0, i
  {
    if i == 0 {
      before, after := LeafTextAppears(errs[0], s);
      if |errs| > 1 {
        after := after + "\n" + JoinedText(errs[1..]);
      }
    } else {
      var x, y := LeafTextAppearsIn(errs[1..], i - 1, s);
      before, after := Text(errs[0]) + "\n" + x, y;
    }
  }

  predicate Contains(text: string, part: string) {
    exists i | 0 <= i <= |text| :: part <= text[i..]
  }

  /** So an error passed on with its text passes on that of all its sentinels. */
  lemma LeafTextsAppear(e: Error)
    ensures forall s | s in Leaves(e) :: Contains(Text(e), s.Text())
  {
    forall s | s in Leaves(e) ensures Contains(Text(e), s.Text()) {
      var before, after := LeafTextAppears(e, s);
      assert Text(e)[|before|..] == s.Text() + after;
    }
  }

  /** A chain of single wraps around an error, innermost first. */
  function WrapAll(e: Error, layers: seq<(string, string)>): Error
    decreases |layers|
  {
    if layers == [] then e
    else WrapAll(Wrap(layers[0].0, e, layers[0].1), layers[1..])
  }

  lemma {:induction false} WrappingKeepsLeaves(e: Error, layers: seq<(string, string)>)
    ensures Leaves(WrapAll(e, layers)) == Leaves(e)
    decreases |layers|
  {
    if layers == [] {
    } else {
      WrappingKeepsLeaves(Wrap(layers[0].0, e, layers[0].1), layers[1..]);
    }
  }
}
