/** Lexicographic comparison of sequences, a proper prefix first. */
module Lexical {

  ghost predicate StrictTotal<T(!new)>(less: (T, T) -> bool) {
    && (forall a :: !less(a, a))
    && (forall a, b :: less(a, b) || less(b, a) || a == b)
    && (forall a, b, c :: less(a, b) && less(b, c) ==> less(a, c))
  }

  predicate Before<T(==)>(less: (T, T) -> bool, a: seq<T>, b: seq<T>) {
    b != [] && (a == [] || less(a[0], b[0]) || (a[0] == b[0] && Before(less, a[1..], b[1..])))
  }

  lemma {:induction false} BeforeIsIrreflexive<T(!new)>(less: (T, T) -> bool, a: seq<T>)
    requires StrictTotal(less)
    ensures !Before(less, a, a)
  {
    if a != [] {
      BeforeIsIrreflexive(less, a[1..]);
    }
  }

  lemma {:induction false} BeforeIsTotal<T(!new)>(less: (T, T) -> bool, a: seq<T>, b: seq<T>)
    requires StrictTotal(less)
    ensures Before(less, a, b) || Before(less, b, a) || a == b
  {
    if a != [] && b != [] && a[0] == b[0] {
      BeforeIsTotal(less, a[1..], b[1..]);
      assert a == [a[0]] + a[1..] && b == [b[0]] + b[1..];
    }
  }

  lemma {:induction false} BeforeIsTransitive<T(!new)>(less: (T, T) -> bool, a: seq<T>, b: seq<T>, c: seq<T>)
    requires StrictTotal(less) && Before(less, a, b) && Before(less, b, c)
    ensures Before(less, a, c)
  {
    if a != [] && a[0] == b[0] && b[0] == c[0] {
      BeforeIsTransitive(less, a[1..], b[1..], c[1..]);
    }
  }

  /** The comparison is decided at the first place where the two differ. */
  lemma {:induction false} DecidedAt<T(!new)>(less: (T, T) -> bool, a: seq<T>, b: seq<T>, k: nat)
    requires StrictTotal(less) && k <= |a| && k <= |b| && a[..k] == b[..k]
    ensures k == |a| && k < |b| ==> Before(less, a, b)
    ensures k < |a| && k < |b| && less(a[k], b[k]) ==> Before(less, a, b)
  {
    if k > 0 {
      assert a[0] == a[..k][0] == b[0];
      assert a[1..][..k - 1] == a[..k][1..] && b[1..][..k - 1] == b[..k][1..];
      DecidedAt(less, a[1..], b[1..], k - 1);
    }
  }
}
