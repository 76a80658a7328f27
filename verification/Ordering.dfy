/** Python's order on strings (code point by code point) and `sorted` on a set of them. */
module Ordering {
  predicate Less(a: string, b: string) {
    b != [] && (a == [] || a[0] < b[0] || (a[0] == b[0] && Less(a[1..], b[1..])))
  }

  lemma {:induction false} LessIsStrict(a: string, b: string)
    requires Less(a, b)
    ensures a != b && !Less(b, a)
  {
    if a != [] && a[0] == b[0] {
      LessIsStrict(a[1..], b[1..]);
    }
  }

  lemma {:induction false} LessIsTotal(a: string, b: string)
    ensures a == b || Less(a, b) || Less(b, a)
  {
    if a != [] && b != [] && a[0] == b[0] {
      LessIsTotal(a[1..], b[1..]);
      assert a == [a[0]] + a[1..] && b == [b[0]] + b[1..];
    }
  }

  lemma {:induction false} LessIsTransitive(a: string, b: string, c: string)
    requires Less(a, b) && Less(b, c)
    ensures Less(a, c)
  {
    if a != [] && a[0] == b[0] == c[0] {
      LessIsTransitive(a[1..], b[1..], c[1..]);
    }
  }

  predicate IsLeast(x: string, s: set<string>) {
    x in s && forall y :: y in s ==> y == x || Less(x, y)
  }

  lemma {:induction false} SomeLeast(s: set<string>)
    requires s != {}
    ensures exists x :: IsLeast(x, s)
    decreases |s|
  {
    var x :| x in s;
    if s == {x} {
      assert IsLeast(x, s);
    } else {
      var rest := s - {x};
      assert rest != {} by { assert s == {x} + rest; }
      SomeLeast(rest);
      var y :| IsLeast(y, rest);
      LessIsTotal(x, y);
      if Less(x, y) {
        forall z | z in s ensures z == x || Less(x, z) {
          if z != x && z != y { LessIsTransitive(x, y, z); }
        }
        assert IsLeast(x, s);
      } else {
        assert IsLeast(y, s);
      }
    }
  }

  lemma LeastIsUnique(x: string, y: string, s: set<string>)
    requires IsLeast(x, s) && IsLeast(y, s)
    ensures x == y
  {
    if x != y { LessIsStrict(x, y); }
  }

  ghost predicate Ascending(r: seq<string>) {
    forall i, j :: 0 <= i < j < |r| ==> Less(r[i], r[j])
  }

  function Least(s: set<string>): (x: string)
    requires s != {}
    ensures IsLeast(x, s)
  {
    SomeLeast(s);
    assert forall x, y :: IsLeast(x, s) && IsLeast(y, s) ==> x == y by {
      forall x, y | IsLeast(x, s) && IsLeast(y, s) ensures x == y { LeastIsUnique(x, y, s); }
    }
    var x :| IsLeast(x, s);
    x
  }

  /** sorted(s): every element once, in ascending order. */
  function Sorted(s: set<string>): (r: seq<string>)
    ensures forall x :: x in r <==> x in s
    ensures Ascending(r) && |r| == |s|
    decreases |s|
  {
    if s == {} then []
    else
      var x := Least(s);
      [x] + Sorted(s - {x})
  }

  // An ascending listing is determined by its elements.
  lemma {:induction false} AscendingIsUnique(a: seq<string>, b: seq<string>)
    requires Ascending(a) && Ascending(b) && forall x :: x in a <==> x in b
    ensures a == b
  {
    if b != [] { assert b[0] in b; }
    if a != [] {
      assert a[0] in a;
      assert b[0] in a && a[0] in b;
      if a[0] != b[0] {
        assert Less(a[0], b[0]) && Less(b[0], a[0]);
        LessIsStrict(a[0], b[0]);
      }
      RestHasNoHead(a);
      RestHasNoHead(b);
      forall x ensures x in a[1..] <==> x in b[1..] {
        assert x in a <==> x == a[0] || x in a[1..];
        assert x in b <==> x == b[0] || x in b[1..];
      }
      AscendingIsUnique(a[1..], b[1..]);
      assert a == [a[0]] + a[1..] && b == [b[0]] + b[1..];
    }
  }

  lemma RestHasNoHead(a: seq<string>)
    requires Ascending(a) && a != []
    ensures a[0] !in a[1..]
  {
    if a[0] in a[1..] {
      var k :| 0 <= k < |a[1..]| && a[1..][k] == a[0];
      LessIsStrict(a[0], a[k + 1]);
    }
  }

  // sorted on a set of pairs: by the first component, then by the second.
  function Seconds(s: set<(string, string)>, first: string): set<string> {
    set p | p in s && p.0 == first :: p.1
  }

  function PairsWithFirst(first: string, seconds: seq<string>): (r: seq<(string, string)>)
    ensures forall p :: p in r <==> p.0 == first && p.1 in seconds
  {
    if seconds == [] then []
    else
      var n := |seconds| - 1;
      assert seconds == seconds[..n] + [seconds[n]];
      PairsWithFirst(first, seconds[..n]) + [(first, seconds[n])]
  }

  function PairsFrom(s: set<(string, string)>, firsts: seq<string>): (r: seq<(string, string)>)
    ensures forall p :: p in r <==> p.0 in firsts && p in s
  {
    if firsts == [] then []
    else
      var n := |firsts| - 1;
      assert firsts == firsts[..n] + [firsts[n]];
      assert forall p: (string, string) :: p.1 in Seconds(s, p.0) <==> p in s by {
        forall p: (string, string) ensures p.1 in Seconds(s, p.0) <==> p in s {
          if p.1 in Seconds(s, p.0) { assert p == (p.0, p.1); }
        }
      }
      PairsFrom(s, firsts[..n]) + PairsWithFirst(firsts[n], Sorted(Seconds(s, firsts[n])))
  }

  function SortedPairs(s: set<(string, string)>): (r: seq<(string, string)>)
    ensures forall p :: p in r <==> p in s
  {
    PairsFrom(s, Sorted(set p | p in s :: p.0))
  }

  lemma SubsetSize(a: set<string>, b: set<string>)
    requires a <= b
    ensures |a| <= |b|
  {
    assert b == a + (b - a);
  }
}
