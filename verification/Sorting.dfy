/** sort.Slice and the byte order of strings that sort.Strings uses. */
module Sorting {
  ghost predicate StrictWeakOrder<T(!new)>(less: (T, T) -> bool) {
    && (forall x, y :: less(x, y) ==> !less(y, x))
    && (forall x, y, z :: !less(x, y) && !less(y, z) ==> !less(x, z))
  }

  ghost predicate SortedBy<T>(s: seq<T>, less: (T, T) -> bool) {
    forall i, j | 0 <= i < j < |s| :: !less(s[j], s[i])
  }

  /** Some element from index i on that nothing there precedes. */
  method Foremost<T(!new)>(a: array<T>, i: nat, less: (T, T) -> bool) returns (first: nat)
    requires i < a.Length && StrictWeakOrder(less)
    ensures i <= first < a.Length
    ensures forall q | i <= q < a.Length :: !less(a[q], a[first])
  {
    first := i;
    for j := i + 1 to a.Length
      invariant i <= first < j
      invariant forall q | i <= q < j :: !less(a[q], a[first])
    {
      if less(a[j], a[first]) {
        first := j;
      } else if !less(a[first], a[j]) {
        if * { first := j; }
      }
    }
  }

  /** sort.Slice: in place and not stable. Which of several equivalent elements comes
      first is left open, as it is in Go. */
  method SortSlice<T(!new)>(a: array<T>, less: (T, T) -> bool)
    requires StrictWeakOrder(less)
    modifies a
    ensures SortedBy(a[..], less)
    ensures multiset(a[..]) == old(multiset(a[..]))
  {
    for i := 0 to a.Length
      invariant forall p, q | 0 <= p < i && p < q < a.Length :: !less(a[q], a[p])
      invariant multiset(a[..]) == old(multiset(a[..]))
    {
      var first := Foremost(a, i, less);
      a[i], a[first] := a[first], a[i];
    }
  }

  /** Strict lexicographic order. For well-formed strings it is the byte order of Go. */
  predicate Before(a: string, b: string) {
    b != [] && (a == [] || a[0] < b[0] || (a[0] == b[0] && Before(a[1..], b[1..])))
  }

  /** What the order means: where the strings first differ, a ends or has the smaller character. */
  ghost predicate Precedes(a: string, b: string) {
    exists n ::
      && 0 <= n <= |a| && n <= |b| && a[..n] == b[..n]
      && (n == |a| < |b| || (n < |a| && n < |b| && a[n] < b[n]))
  }

  lemma {:induction false} BeforePrecedes(a: string, b: string)
    requires Before(a, b)
    ensures Precedes(a, b)
  {
    if a == [] || a[0] < b[0] {
      assert a[..0] == b[..0];
    } else {
      BeforePrecedes(a[1..], b[1..]);
      var m :| 0 <= m <= |a[1..]| && m <= |b[1..]| && a[1..][..m] == b[1..][..m] &&
               (m == |a[1..]| < |b[1..]| || (m < |a[1..]| && m < |b[1..]| && a[1..][m] < b[1..][m]));
      assert a[..m + 1] == [a[0]] + a[1..][..m] && b[..m + 1] == [b[0]] + b[1..][..m];
    }
  }

  lemma {:induction false} BeforeIsTotal(a: string, b: string)
    ensures Before(a, b) || a == b || Before(b, a)
    ensures !(Before(a, b) && Before(b, a))
  {
    if a != [] && b != [] {
      BeforeIsTotal(a[1..], b[1..]);
      assert a == [a[0]] + a[1..] && b == [b[0]] + b[1..];
    }
  }

  lemma {:induction false} BeforeIsTransitive(a: string, b: string, c: string)
    requires Before(a, b) && Before(b, c)
    ensures Before(a, c)
  {
    if a != [] && b != [] && c != [] && a[0] == b[0] == c[0] {
      BeforeIsTransitive(a[1..], b[1..], c[1..]);
    }
  }

  lemma BeforeIsAnOrder()
    ensures StrictWeakOrder(Before)
  {
    forall a, b ensures Before(a, b) || a == b || Before(b, a)
                ensures !(Before(a, b) && Before(b, a))
    {
      BeforeIsTotal(a, b);
    }
    forall a, b, c | !Before(a, b) && !Before(b, c) ensures !Before(a, c) {
      if Before(a, c) {
        BeforeIsTotal(a, b);
        BeforeIsTotal(b, c);
        if a != b && b != c {
          BeforeIsTransitive(c, b, a);
        }
      }
    }
  }

  ghost predicate StrictlyAscending(s: seq<string>) {
    forall i, j | 0 <= i < j < |s| :: Before(s[i], s[j])
  }

  /** Two strictly ascending lists of the same strings are the same list. */
  lemma {:induction false} AscendingIsUnique(s: seq<string>, t: seq<string>)
    requires StrictlyAscending(s) && StrictlyAscending(t)
    requires forall x :: x in s <==> x in t
    ensures s == t
  {
    assert forall i | 0 <= i < |s| :: s[i] in t;
    assert forall i | 0 <= i < |t| :: t[i] in s;
    if s == [] || t == [] {
    } else {
      BeforeIsTotal(s[0], t[0]);
      BeforeIsAnOrder();
      assert s[0] == t[0];
      forall x ensures x in s[1..] <==> x in t[1..] {
        assert x in s[1..] ==> x in s && x != s[0];
        assert x in t[1..] ==> x in t && x != t[0];
      }
      AscendingIsUnique(s[1..], t[1..]);
      assert s == [s[0]] + s[1..] && t == [t[0]] + t[1..];
    }
  }

  ghost predicate Lists(s: seq<string>, ss: set<string>) {
    StrictlyAscending(s) && |s| == |ss| && forall x :: x in s <==> x in ss
  }

  lemma {:induction false} Least(ss: set<string>) returns (least: string)
    requires ss != {}
    ensures least in ss && forall x | x in ss && x != least :: Before(least, x)
  {
    least :| least in ss;
    if ss != {least} {
      var y := Least(ss - {least});
      BeforeIsTotal(least, y);
      if Before(y, least) {
        least := y;
      } else {
        forall x | x in ss && x != least && x != y ensures Before(least, x) {
          BeforeIsTransitive(least, y, x);
        }
      }
    }
  }

  lemma {:induction false} ListExists(ss: set<string>)
    ensures exists s :: Lists(s, ss)
  {
    if ss == {} {
      assert Lists([], ss);
    } else {
      var least := Least(ss);
      ListExists(ss - {least});
      var s :| Lists(s, ss - {least});
      assert Lists([least] + s, ss);
    }
  }

  /** The elements of a set in ascending order. */
  ghost function Ascending(ss: set<string>): (s: seq<string>)
    ensures Lists(s, ss)
  {
    ListExists(ss);
    var s :| Lists(s, ss);
    s
  }

  ghost predicate Distinct<T>(s: seq<T>) {
    forall i, j | 0 <= i < j < |s| :: s[i] != s[j]
  }

  /** Ranging over a map: its keys, each once, in whatever order. */
  method CollectKeys(m: map<string, string>) returns (a: array<string>)
    ensures fresh(a) && Distinct(a[..]) && forall x :: x in a[..] <==> x in m.Keys
  {
    a := new string[|m.Keys|];
    var rest := m.Keys;
    var n := 0;
    while rest != {}
      invariant rest <= m.Keys && n + |rest| == a.Length
      invariant Distinct(a[..n]) && forall x :: x in a[..n] <==> x in m.Keys - rest
      decreases rest
    {
      var k :| k in rest;
      assert forall i | 0 <= i < n :: a[i] in a[..n];
      a[n] := k;
      assert a[..n + 1] == a[..n] + [k];
      rest := rest - {k};
      n := n + 1;
    }
    assert a[..n] == a[..];
  }

  lemma {:induction false} DistinctCountsOnce<T>(s: seq<T>, x: T)
    requires Distinct(s)
    ensures multiset(s)[x] <= 1
  {
    if s == [] {
    } else {
      DistinctCountsOnce(s[1..], x);
      assert s == [s[0]] + s[1..];
      if s[0] == x {
        assert x !in s[1..];
      }
    }
  }

  lemma DistinctStaysDistinct<T>(s: seq<T>, t: seq<T>)
    requires Distinct(s) && multiset(s) == multiset(t)
    ensures Distinct(t)
  {
    forall i, j | 0 <= i < j < |t| ensures t[i] != t[j] {
      if t[i] == t[j] {
        assert t == t[..i] + [t[i]] + t[i + 1..j] + [t[j]] + t[j + 1..];
        assert multiset(t)[t[i]] >= 2;
        DistinctCountsOnce(s, t[i]);
      }
    }
  }

  lemma SortedIsAscending(collected: seq<string>, keys: seq<string>, ss: set<string>)
    requires Distinct(collected) && forall x :: x in collected <==> x in ss
    requires SortedBy(keys, Before) && multiset(keys) == multiset(collected)
    ensures keys == Ascending(ss)
  {
    DistinctStaysDistinct(collected, keys);
    forall i, j | 0 <= i < j < |keys| ensures Before(keys[i], keys[j]) {
      BeforeIsTotal(keys[i], keys[j]);
    }
    forall x ensures x in keys <==> x in ss {
      assert x in keys <==> x in multiset(keys);
      assert x in collected <==> x in multiset(collected);
    }
    AscendingIsUnique(keys, Ascending(ss));
  }

  /** sortedKeys: a map's keys, collected in whatever order the map yields them, then
      sorted in place. */
  method SortedKeys(m: map<string, string>) returns (keys: seq<string>)
    ensures keys == Ascending(m.Keys)
    ensures |keys| == |m| && forall x :: x in keys <==> x in m
    ensures forall i, j | 0 <= i < j < |keys| :: Precedes(keys[i], keys[j])
  {
    var a := CollectKeys(m);
    ghost var collected := a[..];
    BeforeIsAnOrder();
    SortSlice(a, Before);
    keys := a[..];
    SortedIsAscending(collected, keys, m.Keys);
    assert |m| == |m.Keys|;
    forall i, j | 0 <= i < j < |keys| ensures Precedes(keys[i], keys[j]) {
      BeforePrecedes(keys[i], keys[j]);
    }
  }
}
