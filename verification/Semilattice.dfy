/** Joins that may be taken in any order, grouping or number of repetitions. */
module Semilattice {
  ghost predicate IsSemilattice<T(!new)>(join: (T, T) -> T) {
    && (forall x, y :: join(x, y) == join(y, x))
    && (forall x, y, z :: join(join(x, y), z) == join(x, join(y, z)))
    && (forall x :: join(x, x) == x)
  }

  function Fold<T>(join: (T, T) -> T, s: seq<T>): T
    requires s != []
  {
    if |s| == 1 then s[0] else join(Fold(join, s[..|s| - 1]), s[|s| - 1])
  }

  lemma FoldAppend<T>(join: (T, T) -> T, s: seq<T>, x: T)
    requires s != []
    ensures Fold(join, s + [x]) == join(Fold(join, s), x)
  {
    assert (s + [x])[..|s|] == s;
  }

  lemma Associates<T(!new)>(join: (T, T) -> T, x: T, y: T, z: T)
    requires IsSemilattice(join)
    ensures join(join(x, y), z) == join(x, join(y, z))
  {
  }

  lemma {:induction false} FoldSplits<T(!new)>(join: (T, T) -> T, a: seq<T>, b: seq<T>)
    requires IsSemilattice(join) && a != [] && b != []
    ensures Fold(join, a + b) == join(Fold(join, a), Fold(join, b))
    decreases |b|
  {
    hide IsSemilattice;
    var all, n := a + b, |b| - 1;
    assert all[..|all| - 1] == a + b[..n] && all[|all| - 1] == b[n];
    if n == 0 {
      assert a + b[..0] == a;
    } else {
      FoldSplits(join, a, b[..n]);
      Associates(join, Fold(join, a), Fold(join, b[..n]), b[n]);
    }
  }

  lemma {:induction false} FoldAbsorbs<T(!new)>(join: (T, T) -> T, s: seq<T>, x: T)
    requires IsSemilattice(join) && x in s
    ensures join(Fold(join, s), x) == Fold(join, s)
    decreases |s|
  {
    var n := |s| - 1;
    assert s == s[..n] + [s[n]];
    if x in s[..n] { FoldAbsorbs(join, s[..n], x); }
  }

  lemma {:induction false} FoldAbsorbsAll<T(!new)>(join: (T, T) -> T, a: seq<T>, b: seq<T>)
    requires IsSemilattice(join) && a != [] && b != [] && forall x :: x in b ==> x in a
    ensures join(Fold(join, a), Fold(join, b)) == Fold(join, a)
    decreases |b|
  {
    var n := |b| - 1;
    assert b[n] in a;
    FoldAbsorbs(join, a, b[n]);
    if n > 0 {
      assert forall x :: x in b[..n] ==> x in a;
      FoldAbsorbsAll(join, a, b[..n]);
    }
  }

  /** The join of a list depends only on which elements it has. */
  lemma SetDetermined<T(!new)>(join: (T, T) -> T, a: seq<T>, b: seq<T>)
    requires IsSemilattice(join) && a != [] && b != [] && forall x :: x in a <==> x in b
    ensures Fold(join, a) == Fold(join, b)
  {
    FoldAbsorbsAll(join, a, b);
    FoldAbsorbsAll(join, b, a);
  }

  /** Joining part of a list first changes nothing. */
  lemma Grouping<T(!new)>(join: (T, T) -> T, a: seq<T>, b: seq<T>)
    requires IsSemilattice(join) && a != []
    ensures Fold(join, [Fold(join, a)] + b) == Fold(join, a + b)
  {
    if b == [] {
      assert a + b == a && [Fold(join, a)] + b == [Fold(join, a)];
    } else {
      FoldSplits(join, a, b);
      FoldSplits(join, [Fold(join, a)], b);
    }
  }
}
