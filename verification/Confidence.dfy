/** Confidence from evidence: a noisy-OR over correlated groups (Finding.recompute_confidence in shadowscan/models.py). */
module Confidence {
  import Risk

  datatype Option<T> = None | Some(value: T)

  datatype Evidence = Evidence(weight: real, group: Option<string>, signal: string)

  // The key of an evidence group: a shared group name, a signal, or the position of evidence that stands alone.
  datatype GroupKey = Grouped(name: string) | Signal(signal: string) | Alone(position: nat)

  function KeyAt(e: Evidence, position: nat, code: bool): GroupKey {
    if e.group.Some? then Grouped(e.group.value) else if code then Alone(position) else Signal(e.signal)
  }

  function WeightOf(e: Evidence): real {
    Risk.Unit(e.weight)
  }

  function Max(a: real, b: real): real {
    if b > a then b else a
  }

  type Groups = map<GroupKey, real>

  function Strongest(g: Groups, k: GroupKey): real {
    if k in g then g[k] else 0.0
  }

  function GroupsOf(es: seq<Evidence>, code: bool): Groups {
    if es == [] then map[]
    else
      var n := |es| - 1;
      var rest, k := GroupsOf(es[..n], code), KeyAt(es[n], n, code);
      rest[k := Max(Strongest(rest, k), WeightOf(es[n]))]
  }

  // ---------------------------------------------------------------- the product over groups

  function Times(a: real, b: real): real {
    a * b
  }

  ghost predicate Weights(g: Groups) {
    forall k :: k in g ==> 0.0 <= g[k] <= 1.0
  }

  // The product of 1 - weight over the groups, in whatever order they are taken.
  ghost function NoneHolds(g: Groups): real
    decreases |g|
  {
    if g == map[] then 1.0
    else
      var k :| k in g;
      Times(1.0 - g[k], NoneHolds(g - {k}))
  }

  lemma Associates(a: real, b: real, c: real)
    ensures Times(a, Times(b, c)) == Times(b, Times(a, c))
  {
    assert a * (b * c) == (a * b) * c == (b * a) * c == b * (a * c);
  }

  /** Any group may be taken out of the product first. */
  lemma {:induction false} TakeOut(g: Groups, k: GroupKey)
    requires k in g
    ensures NoneHolds(g) == Times(1.0 - g[k], NoneHolds(g - {k}))
    decreases |g|
  {
    hide Times;
    var x :| x in g && NoneHolds(g) == Times(1.0 - g[x], NoneHolds(g - {x}));
    if x != k {
      TakeOut(g - {x}, k);
      TakeOut(g - {k}, x);
      assert g - {x} - {k} == g - {k} - {x};
      Associates(1.0 - g[x], 1.0 - g[k], NoneHolds(g - {x} - {k}));
    }
  }

  lemma TimesRange(a: real, b: real)
    requires 0.0 <= a <= 1.0 && 0.0 <= b <= 1.0
    ensures 0.0 <= Times(a, b) <= 1.0 && Times(a, b) <= b
  {
    Risk.ProductIsNonNegative(a, b);
    Risk.ProductIsNonNegative(1.0 - a, b);
    assert (1.0 - a) * b + a * b == ((1.0 - a) + a) * b == b;
  }

  lemma TimesGrows(a: real, b: real, c: real)
    requires a <= b && c >= 0.0
    ensures Times(a, c) <= Times(b, c)
  {
    Risk.ProductIsNonNegative(b - a, c);
    assert (b - a) * c + a * c == ((b - a) + a) * c;
  }

  lemma {:induction false} NoneHoldsRange(g: Groups)
    requires Weights(g)
    ensures 0.0 <= NoneHolds(g) <= 1.0
    decreases |g|
  {
    if g != map[] {
      var k :| k in g;
      TakeOut(g, k);
      assert Weights(g - {k});
      NoneHoldsRange(g - {k});
      TimesRange(1.0 - g[k], NoneHolds(g - {k}));
    }
  }

  // Setting one group multiplies the product of the others.
  lemma SetGroup(g: Groups, k: GroupKey, w: real)
    ensures NoneHolds(g[k := w]) == Times(1.0 - w, NoneHolds(g - {k}))
  {
    TakeOut(g[k := w], k);
    assert g[k := w] - {k} == g - {k};
  }

  // ---------------------------------------------------------------- confidence

  ghost function ConfidenceOf(es: seq<Evidence>, code: bool): real {
    1.0 - NoneHolds(GroupsOf(es, code))
  }

  // round(x, 3)
  function Rounded(x: real): real {
    Risk.HalfEven(1000.0 * x) as real / 1000.0
  }

  datatype Likelihood = Strong | Likely | Possible | Weak

  function LikelihoodOf(confidence: real): Likelihood {
    if confidence >= 0.85 then Strong else if confidence >= 0.6 then Likely else if confidence >= 0.3 then Possible else Weak
  }

  /** In thousandths, the likelihood is weak up to 299, possible from 300, likely from 600 and strong from 850, so a higher
      confidence is never less likely. */
  lemma LikelihoodMeans(confidence: real)
    ensures LikelihoodOf(confidence) == Weak <==> 1000.0 * confidence < 300.0
    ensures LikelihoodOf(confidence) == Possible <==> 300.0 <= 1000.0 * confidence < 600.0
    ensures LikelihoodOf(confidence) == Likely <==> 600.0 <= 1000.0 * confidence < 850.0
    ensures LikelihoodOf(confidence) == Strong <==> 850.0 <= 1000.0 * confidence
  {
  }

  class Finding {
    const code: bool
    var evidence: seq<Evidence>
    var confidence: real
    var likelihood: Likelihood

    constructor (code: bool, evidence: seq<Evidence>)
      ensures this.code == code && this.evidence == evidence
      ensures confidence == Rounded(ConfidenceOf(evidence, code)) && likelihood == LikelihoodOf(confidence)
    {
      this.code, this.evidence, confidence, likelihood := code, evidence, 0.0, Weak;
      new;
      RecomputeConfidence();
    }

    method RecomputeConfidence()
      modifies this`confidence, this`likelihood
      ensures confidence == Rounded(ConfidenceOf(evidence, code)) && likelihood == LikelihoodOf(confidence)
    {
      var groups: Groups := map[];
      for n := 0 to |evidence|
        invariant groups == GroupsOf(evidence[..n], code)
      {
        assert evidence[..n + 1][..n] == evidence[..n];
        var key := KeyAt(evidence[n], n, code);
        groups := groups[key := Max(Strongest(groups, key), WeightOf(evidence[n]))];
      }
      assert evidence[..|evidence|] == evidence;
      var none := ProductOf(groups);
      confidence := Rounded(1.0 - none);
      likelihood := LikelihoodOf(confidence);
    }
  }

  // The loop that multiplies the groups together, taking them in any order.
  method ProductOf(groups: Groups) returns (none: real)
    ensures none == NoneHolds(groups)
  {
    hide Times, NoneHolds;
    none := 1.0;
    var left := groups;
    Multiply(1.0, 1.0, NoneHolds(groups));
    while left != map[]
      invariant Times(none, NoneHolds(left)) == NoneHolds(groups)
      decreases |left|
    {
      var key :| key in left;
      TakeOut(left, key);
      Multiply(none, 1.0 - left[key], NoneHolds(left - {key}));
      none := Times(none, 1.0 - left[key]);
      left := left - {key};
    }
    NothingHolds();
    Multiply(none, 1.0, 1.0);
  }

  lemma NothingHolds()
    ensures NoneHolds(map[]) == 1.0
  {
  }

  lemma Multiply(a: real, b: real, c: real)
    ensures Times(Times(a, b), c) == Times(a, Times(b, c)) && Times(1.0, c) == c && Times(a, 1.0) == a
  {
  }

  // ---------------------------------------------------------------- range and growth

  lemma {:induction false} GroupsAreWeights(es: seq<Evidence>, code: bool)
    ensures Weights(GroupsOf(es, code))
    decreases |es|
  {
    if es != [] { GroupsAreWeights(es[..|es| - 1], code); }
  }

  /** Confidence lies between 0 and 1, and more evidence never lowers it. */
  lemma ConfidenceGrows(es: seq<Evidence>, e: Evidence, code: bool)
    ensures 0.0 <= ConfidenceOf(es, code) <= ConfidenceOf(es + [e], code) <= 1.0
    ensures Rounded(ConfidenceOf(es, code)) <= Rounded(ConfidenceOf(es + [e], code))
  {
    hide Times, KeyAt, WeightOf;
    var all, g := es + [e], GroupsOf(es, code);
    assert all[..|es|] == es && all[|es|] == e;
    var k := KeyAt(e, |es|, code);
    var w := Max(Strongest(g, k), WeightOf(e));
    GroupsAreWeights(es, code);
    GroupsAreWeights(all, code);
    NoneHoldsRange(g);
    NoneHoldsRange(GroupsOf(all, code));
    assert Weights(g - {k});
    NoneHoldsRange(g - {k});
    SetGroup(g, k, w);
    assert GroupsOf(all, code) == g[k := w];
    assert w <= 1.0 by { assert GroupsOf(all, code)[k] == w; }
    assert 0.0 <= w by { assert GroupsOf(all, code)[k] == w; }
    if k in g {
      SetGroup(g, k, g[k]);
      assert g[k := g[k]] == g;
      TimesGrows(1.0 - w, 1.0 - g[k], NoneHolds(g - {k}));
    } else {
      assert g - {k} == g;
      TimesRange(1.0 - w, NoneHolds(g));
    }
    RoundedIsMonotone(ConfidenceOf(es, code), ConfidenceOf(all, code));
  }

  lemma RoundedIsMonotone(x: real, y: real)
    requires x <= y
    ensures Rounded(x) <= Rounded(y)
  {
    Risk.HalfEvenIsMonotone(1000.0 * x, 1000.0 * y);
  }

  // ---------------------------------------------------------------- order

  predicate StandsAlone(e: Evidence, code: bool) {
    code && e.group.None?
  }

  // The shared groups do not depend on positions; the rest of the product is over evidence that stands alone.
  function SharedOf(es: seq<Evidence>, code: bool): Groups {
    if es == [] then map[]
    else
      var n := |es| - 1;
      var rest, k := SharedOf(es[..n], code), KeyAt(es[n], n, code);
      if StandsAlone(es[n], code) then rest else rest[k := Max(Strongest(rest, k), WeightOf(es[n]))]
  }

  function AloneProduct(es: seq<Evidence>, code: bool): real {
    if es == [] then 1.0
    else
      var rest, e := AloneProduct(es[..|es| - 1], code), es[|es| - 1];
      if StandsAlone(e, code) then Times(1.0 - WeightOf(e), rest) else rest
  }

  function AloneOf(es: seq<Evidence>, code: bool): Groups {
    if es == [] then map[]
    else
      var n := |es| - 1;
      var rest := AloneOf(es[..n], code);
      if StandsAlone(es[n], code) then rest[Alone(n) := WeightOf(es[n])] else rest
  }

  lemma {:induction false} GroupsSplit(es: seq<Evidence>, code: bool)
    ensures forall k: GroupKey :: k in AloneOf(es, code) ==> k.Alone? && k.position < |es|
    ensures forall k: GroupKey :: k in SharedOf(es, code) ==> !k.Alone?
    ensures GroupsOf(es, code) == SharedOf(es, code) + AloneOf(es, code)
    decreases |es|
  {
    if es != [] {
      var n := |es| - 1;
      GroupsSplit(es[..n], code);
      var g, s, a := GroupsOf(es[..n], code), SharedOf(es[..n], code), AloneOf(es[..n], code);
      var k := KeyAt(es[n], n, code);
      WeightRange(es[n]);
      if StandsAlone(es[n], code) {
        assert k == Alone(n) && k !in g;
        assert (s + a)[k := WeightOf(es[n])] == s + a[k := WeightOf(es[n])];
      } else {
        assert !k.Alone? && k !in a && Strongest(g, k) == Strongest(s, k);
        var w := Max(Strongest(s, k), WeightOf(es[n]));
        assert (s + a)[k := w] == s[k := w] + a;
      }
    }
  }

  lemma WeightRange(e: Evidence)
    ensures 0.0 <= WeightOf(e) <= 1.0
  {
  }

  lemma {:induction false} DisjointProduct(a: Groups, b: Groups)
    requires forall k :: k in a ==> k !in b
    ensures NoneHolds(a + b) == Times(NoneHolds(a), NoneHolds(b))
    decreases |b|
  {
    hide Times, NoneHolds;
    if b == map[] {
      NothingAdded(a);
    } else {
      var k :| k in b;
      Without(a, b, k);
      DisjointProduct(a, b - {k});
      DisjointStep(a + b, a + (b - {k}), b, k, NoneHolds(a));
    }
  }

  lemma NothingAdded(a: Groups)
    ensures NoneHolds(a + map[]) == Times(NoneHolds(a), NoneHolds(map[]))
  {
    assert a + map[] == a;
  }

  lemma DisjointStep(whole: Groups, rest: Groups, b: Groups, k: GroupKey, first: real)
    requires k in whole && k in b && whole[k] == b[k] && whole - {k} == rest
    requires NoneHolds(rest) == Times(first, NoneHolds(b - {k}))
    ensures NoneHolds(whole) == Times(first, NoneHolds(b))
  {
    hide Times, NoneHolds;
    TakeOut(b, k);
    TakeOut(whole, k);
    Associates(first, 1.0 - b[k], NoneHolds(b - {k}));
  }

  lemma Without(a: Groups, b: Groups, k: GroupKey)
    requires k in b && forall x :: x in a ==> x !in b
    ensures k in a + b && (a + b)[k] == b[k] && (a + b) - {k} == a + (b - {k})
    ensures |b - {k}| < |b|
  {
    assert b - {k} == map x | x in b && x != k :: b[x];
    assert (b - {k}).Keys == b.Keys - {k};
    assert |b - {k}| == |(b - {k}).Keys| && |b| == |b.Keys|;
  }

  lemma {:induction false} AloneProductIs(es: seq<Evidence>, code: bool)
    ensures NoneHolds(AloneOf(es, code)) == AloneProduct(es, code)
    decreases |es|
  {
    if es != [] {
      var n := |es| - 1;
      AloneProductIs(es[..n], code);
      GroupsSplit(es[..n], code);
      if StandsAlone(es[n], code) {
        var rest := AloneOf(es[..n], code);
        assert Alone(n) !in rest && rest - {Alone(n)} == rest;
        SetGroup(rest, Alone(n), WeightOf(es[n]));
      }
    }
  }

  /** The product splits into the shared groups, which know no positions, and the evidence that stands alone. */
  lemma ProductSplits(es: seq<Evidence>, code: bool)
    ensures NoneHolds(GroupsOf(es, code)) == Times(NoneHolds(SharedOf(es, code)), AloneProduct(es, code))
  {
    hide Times;
    GroupsSplit(es, code);
    DisjointProduct(SharedOf(es, code), AloneOf(es, code));
    AloneProductIs(es, code);
  }

  // The key evidence shares with other evidence.
  function SharedKey(e: Evidence): GroupKey {
    if e.group.Some? then Grouped(e.group.value) else Signal(e.signal)
  }

  ghost predicate Supports(es: seq<Evidence>, code: bool, k: GroupKey, w: real) {
    exists e :: e in es && !StandsAlone(e, code) && SharedKey(e) == k && WeightOf(e) == w
  }

  lemma {:induction false} SharedIs(es: seq<Evidence>, code: bool)
    ensures forall k :: k in SharedOf(es, code) ==> Supports(es, code, k, SharedOf(es, code)[k])
    ensures forall k, w :: Supports(es, code, k, w) ==> k in SharedOf(es, code) && w <= SharedOf(es, code)[k]
    decreases |es|
  {
    if es != [] {
      var n := |es| - 1;
      var rest, e := es[..n], es[n];
      SharedIs(rest, code);
      WeightRange(e);
      assert es == rest + [e];
      forall k, w ensures Supports(es, code, k, w) <==>
                          Supports(rest, code, k, w) || (!StandsAlone(e, code) && SharedKey(e) == k && WeightOf(e) == w) {
        SupportsOneMore(rest, e, code, k, w);
      }
      var s := SharedOf(rest, code);
      assert forall k :: k in s ==> s[k] >= 0.0 by {
        forall k | k in s ensures s[k] >= 0.0 {
          var x :| x in rest && !StandsAlone(x, code) && SharedKey(x) == k && WeightOf(x) == s[k];
          WeightRange(x);
        }
      }
      assert !StandsAlone(e, code) ==> KeyAt(e, n, code) == SharedKey(e);
      hide Supports, WeightOf, SharedKey;
    }
  }

  lemma SupportsOneMore(rest: seq<Evidence>, e: Evidence, code: bool, k: GroupKey, w: real)
    ensures Supports(rest + [e], code, k, w) <==>
            Supports(rest, code, k, w) || (!StandsAlone(e, code) && SharedKey(e) == k && WeightOf(e) == w)
  {
    assert forall x :: x in rest + [e] <==> x in rest || x == e;
    hide WeightOf, SharedKey, StandsAlone;
  }

  lemma SharedIgnoresOrder(a: seq<Evidence>, b: seq<Evidence>, code: bool)
    requires forall e :: e in a <==> e in b
    ensures SharedOf(a, code) == SharedOf(b, code)
  {
    SharedIs(a, code);
    SharedIs(b, code);
    var x, y := SharedOf(a, code), SharedOf(b, code);
    hide SharedOf, WeightOf, SharedKey, StandsAlone;
    forall k, w ensures Supports(a, code, k, w) <==> Supports(b, code, k, w) { }
    hide Supports;
    assert forall k :: k in x ==> Supports(b, code, k, x[k]);
    assert forall k :: k in y ==> Supports(a, code, k, y[k]);
    assert x == y;
  }

  // Evidence that stands alone can be taken from anywhere in the list.
  lemma {:induction false} AloneTakeOut(es: seq<Evidence>, i: nat, code: bool)
    requires i < |es|
    ensures AloneProduct(es, code) ==
            if StandsAlone(es[i], code) then Times(1.0 - WeightOf(es[i]), AloneProduct(es[..i] + es[i + 1..], code))
            else AloneProduct(es[..i] + es[i + 1..], code)
    decreases |es|
  {
    hide Times, WeightOf;
    var n := |es| - 1;
    var without := es[..i] + es[i + 1..];
    if i == n {
      assert without == es[..n];
    } else {
      AloneTakeOut(es[..n], i, code);
      assert without[..|without| - 1] == es[..n][..i] + es[..n][i + 1..] && without[|without| - 1] == es[n];
      if StandsAlone(es[i], code) && StandsAlone(es[n], code) {
        Associates(1.0 - WeightOf(es[n]), 1.0 - WeightOf(es[i]), AloneProduct(es[..n][..i] + es[..n][i + 1..], code));
      }
    }
  }

  lemma {:induction false} AloneIgnoresOrder(a: seq<Evidence>, b: seq<Evidence>, code: bool)
    requires multiset(a) == multiset(b)
    ensures AloneProduct(a, code) == AloneProduct(b, code)
    decreases |a|
  {
    if a == [] {
      assert |b| == |multiset(b)| == 0;
    } else {
      var n := |a| - 1;
      hide Times, WeightOf, StandsAlone;
      var i := PositionIn(a, b);
      AloneIgnoresOrder(a[..n], b[..i] + b[i + 1..], code);
      AloneTakeOut(b, i, code);
    }
  }

  lemma PositionIn(a: seq<Evidence>, b: seq<Evidence>) returns (i: nat)
    requires a != [] && multiset(a) == multiset(b)
    ensures i < |b| && b[i] == a[|a| - 1] && multiset(a[..|a| - 1]) == multiset(b[..i] + b[i + 1..])
  {
    var n := |a| - 1;
    assert a[n] in multiset(a) && a[n] in b;
    i :| 0 <= i < |b| && b[i] == a[n];
    assert a == a[..n] + [a[n]] && b == b[..i] + [b[i]] + b[i + 1..];
    assert multiset(a) == multiset(a[..n]) + multiset{a[n]};
    assert multiset(b) == multiset(b[..i]) + multiset{b[i]} + multiset(b[i + 1..]);
    assert multiset(b[..i] + b[i + 1..]) == multiset(b[..i]) + multiset(b[i + 1..]);
    Cancel(multiset(a[..n]), multiset(b[..i] + b[i + 1..]), a[n]);
  }

  lemma Cancel(x: multiset<Evidence>, y: multiset<Evidence>, e: Evidence)
    requires x + multiset{e} == y + multiset{e}
    ensures x == y
  {
    forall f ensures x[f] == y[f] { assert (x + multiset{e})[f] == (y + multiset{e})[f]; }
  }

  /** The order of the evidence does not matter, although evidence that stands alone is keyed by its position. */
  lemma ConfidenceIgnoresOrder(a: seq<Evidence>, b: seq<Evidence>, code: bool)
    requires multiset(a) == multiset(b)
    ensures ConfidenceOf(a, code) == ConfidenceOf(b, code)
  {
    hide Times;
    forall e ensures e in a <==> e in b { assert e in a <==> e in multiset(a); assert e in b <==> e in multiset(b); }
    ProductSplits(a, code);
    ProductSplits(b, code);
    SharedIgnoresOrder(a, b, code);
    AloneIgnoresOrder(a, b, code);
  }

  /** Repeating a shared observation adds nothing; outside code all evidence with one signal is one observation. */
  lemma RepetitionAddsNothing(es: seq<Evidence>, e: Evidence, code: bool)
    requires !StandsAlone(e, code) && Supports(es, code, SharedKey(e), WeightOf(e))
    ensures ConfidenceOf(es + [e], code) == ConfidenceOf(es, code)
  {
    hide Times;
    var all := es + [e];
    assert all[..|es|] == es && all[|es|] == e;
    SharedIs(es, code);
    assert KeyAt(e, |es|, code) == SharedKey(e);
    var s := SharedOf(es, code);
    assert SharedOf(all, code) == s[SharedKey(e) := s[SharedKey(e)]] == s;
    ProductSplits(es, code);
    ProductSplits(all, code);
  }
}
