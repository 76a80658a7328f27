/** Scoring in exact arithmetic (_confidence_scale, assess and _governance_factors in shadowscan/risk.py, RiskLevel and
    Likelihood in shadowscan/models.py). */
module Risk {
  datatype Option<T> = None | Some(value: T)

  // ---------------------------------------------------------------- rounding halves to even

  function HalfEven(x: real): int {
    var low := x.Floor;
    var part := x - low as real;
    if part < 0.5 then low
    else if part > 0.5 then low + 1
    else if low % 2 == 0 then low else low + 1
  }

  /** The nearest integer, the even one of two that are equally near. */
  lemma HalfEvenIsNearest(x: real)
    ensures -0.5 <= HalfEven(x) as real - x <= 0.5
    ensures HalfEven(x) as real - x == 0.5 || HalfEven(x) as real - x == -0.5 ==> HalfEven(x) % 2 == 0
  {
  }

  lemma HalfEvenOfWhole(n: int)
    ensures HalfEven(n as real) == n
  {
  }

  lemma HalfEvenIsMonotone(x: real, y: real)
    requires x <= y
    ensures HalfEven(x) <= HalfEven(y)
  {
    assert x.Floor <= y.Floor;
    if x.Floor < y.Floor {
      assert HalfEven(x) <= x.Floor + 1;
    }
  }

  // ---------------------------------------------------------------- factors

  datatype Factor = Factor(id: string, weight: int)

  const GOVERNANCE := {"shadow", "registered", "no-owner", "mcp-not-in-approved-registry"}
  const SCALING := "confidence-scaling"
  const BOUNDS := "bounds"

  datatype Policy = Policy(danger: bool, shadow: int, registered: int, noOwner: int, mcpNotApproved: int)

  // What the governance factors read of a finding; `missing` is None unless an approved MCP catalog was checked.
  datatype Governed = Governed(shadow: Option<bool>, owned: bool, missing: Option<int>)

  function Weight(p: Policy, w: int): int {
    if p.danger then 0 else w
  }

  function Weighted(id: string, w: int): seq<Factor> {
    if w == 0 then [] else [Factor(id, w)]
  }

  /** _governance_factors: approval and ownership weigh nothing under the danger basis. */
  function GovernanceFactors(g: Governed, inventoryPresent: bool, p: Policy): seq<Factor> {
    (if inventoryPresent && g.shadow == Some(true) then Weighted("shadow", Weight(p, p.shadow))
     else if inventoryPresent && g.shadow == Some(false) then Weighted("registered", Weight(p, p.registered)) else [])
    + (if g.owned then [] else Weighted("no-owner", Weight(p, p.noOwner)))
    + (if g.missing.Some? && g.missing.value > 0 then Weighted("mcp-not-in-approved-registry", Weight(p, p.mcpNotApproved))
       else [])
  }

  function Sum(fs: seq<Factor>): int {
    if fs == [] then 0 else Sum(fs[..|fs| - 1]) + fs[|fs| - 1].weight
  }

  function SumExcept(fs: seq<Factor>, ids: set<string>): int {
    if fs == [] then 0
    else SumExcept(fs[..|fs| - 1], ids) + (if fs[|fs| - 1].id in ids then 0 else fs[|fs| - 1].weight)
  }

  lemma {:induction false} SumAppend(a: seq<Factor>, b: seq<Factor>)
    ensures Sum(a + b) == Sum(a) + Sum(b)
    decreases |b|
  {
    if b == [] {
      assert a + b == a;
    } else {
      assert (a + b)[..|a + b| - 1] == a + b[..|b| - 1];
      SumAppend(a, b[..|b| - 1]);
    }
  }

  lemma {:induction false} SumExceptNone(fs: seq<Factor>, ids: set<string>)
    requires forall f :: f in fs ==> f.id !in ids
    ensures SumExcept(fs, ids) == Sum(fs)
    decreases |fs|
  {
    if fs != [] {
      assert fs[|fs| - 1] in fs;
      SumExceptNone(fs[..|fs| - 1], ids);
    }
  }

  // ---------------------------------------------------------------- the assessment

  datatype Level = Critical | High | Medium | Low | Info

  function LevelOf(score: int): Level {
    if score >= 75 then Critical else if score >= 50 then High else if score >= 25 then Medium else if score > 0 then Low else Info
  }

  datatype Assessment = Assessment(score: int, danger: int, level: Level, factors: seq<Factor>)

  function Clamp(x: int): int {
    if x < 0 then 0 else if x > 100 then 100 else x
  }

  function Unit(c: real): real {
    if c < 0.0 then 0.0 else if c > 1.0 then 1.0 else c
  }

  function Scale(confidence: real): real {
    0.6 + 0.4 * Unit(confidence)
  }

  function Times(a: real, b: real): real {
    a * b
  }

  function Scaled(total: int, confidence: real): int {
    HalfEven(Times(total as real, Scale(confidence)))
  }

  function Score(total: int, confidence: real): int {
    Clamp(Scaled(total, confidence))
  }

  function Adjustment(total: int, confidence: real): int {
    if Scale(confidence) < 1.0 && Scaled(total, confidence) < total then Scaled(total, confidence) - total else 0
  }

  // The factors that explain the way from the subtotal to the score.
  function Explanation(total: int, confidence: real): seq<Factor> {
    var explained := total + Adjustment(total, confidence);
    (if Scale(confidence) < 1.0 then [Factor(SCALING, Adjustment(total, confidence))] else [])
    + (if Score(total, confidence) != explained then [Factor(BOUNDS, Score(total, confidence) - explained)] else [])
  }

  /** assess: `kind` is the kind's base weight and `rest` the capability, tag, provider, metadata and autonomy factors, none of
      which has a governance id. */
  method Assess(kind: int, g: Governed, inventoryPresent: bool, p: Policy, rest: seq<Factor>, confidence: real)
    returns (a: Assessment)
    requires forall f :: f in rest ==> f.id !in GOVERNANCE
    ensures a.score == Score(Subtotal(kind, g, inventoryPresent, p, rest), confidence)
    ensures a.danger == Score(DangerSubtotal(kind, g, inventoryPresent, p, rest), confidence)
    ensures a.level == LevelOf(a.score)
    ensures Sum(a.factors) == a.score
    ensures a.factors == Base(kind, g, inventoryPresent, p, rest)
                         + Explanation(Subtotal(kind, g, inventoryPresent, p, rest), confidence)
  {
    hide GovernanceFactors, Sum, SumExcept, HalfEven, Times, Scale;
    var factors := [Factor("kind", kind)];
    factors := factors + GovernanceFactors(g, inventoryPresent, p);
    factors := factors + rest;
    var total := Sum(factors);
    var dangerTotal := SumExcept(factors, GOVERNANCE);
    var scale := Scale(confidence);
    var scaled := HalfEven(Times(total as real, scale));
    var score := Clamp(scaled);
    ScaleRange(confidence);
    ScaledIsNearer(total, confidence);
    ghost var base, extra := factors, [];
    var adjustment := 0;
    if scale < 1.0 {
      adjustment := if scaled - total < 0 then scaled - total else 0;
      AppendOne(factors, Factor(SCALING, adjustment));
      factors := factors + [Factor(SCALING, adjustment)];
      extra := [Factor(SCALING, adjustment)];
    }
    var explained := total + adjustment;
    if score != explained {
      AppendOne(factors, Factor(BOUNDS, score - explained));
      factors := factors + [Factor(BOUNDS, score - explained)];
      extra := extra + [Factor(BOUNDS, score - explained)];
    }
    assert factors == base + extra;
    assert extra == Explanation(total, confidence);
    a := Assessment(score, Clamp(HalfEven(Times(dangerTotal as real, scale))), LevelOf(score), factors);
  }

  function Base(kind: int, g: Governed, inventoryPresent: bool, p: Policy, rest: seq<Factor>): seq<Factor> {
    [Factor("kind", kind)] + GovernanceFactors(g, inventoryPresent, p) + rest
  }

  function Subtotal(kind: int, g: Governed, inventoryPresent: bool, p: Policy, rest: seq<Factor>): int {
    Sum(Base(kind, g, inventoryPresent, p, rest))
  }

  function DangerSubtotal(kind: int, g: Governed, inventoryPresent: bool, p: Policy, rest: seq<Factor>): int {
    SumExcept(Base(kind, g, inventoryPresent, p, rest), GOVERNANCE)
  }

  lemma AppendOne(fs: seq<Factor>, f: Factor)
    ensures Sum(fs + [f]) == Sum(fs) + f.weight
  {
    assert (fs + [f])[..|fs|] == fs;
  }

  lemma ScaleRange(confidence: real)
    ensures 0.6 <= Scale(confidence) <= 1.0
  {
  }

  /** Scaling moves a subtotal towards zero and never past it. */
  lemma ScaledIsNearer(total: int, confidence: real)
    ensures total >= 0 ==> 0 <= Scaled(total, confidence) <= total
    ensures total <= 0 ==> total <= Scaled(total, confidence) <= 0
    ensures Scale(confidence) == 1.0 ==> Scaled(total, confidence) == total
  {
    var t, s := total as real, Scale(confidence);
    ScaleRange(confidence);
    Product(t, s);
    HalfEvenOfWhole(total);
    HalfEvenOfWhole(0);
    hide HalfEven, Scale, Times;
    if total >= 0 {
      HalfEvenIsMonotone(0.0, Times(t, s));
      HalfEvenIsMonotone(Times(t, s), t);
    } else {
      HalfEvenIsMonotone(t, Times(t, s));
      HalfEvenIsMonotone(Times(t, s), 0.0);
    }
  }

  lemma ProductIsNonNegative(a: real, b: real)
    requires a >= 0.0 && b >= 0.0
    ensures a * b >= 0.0
  {
  }

  lemma Product(t: real, s: real)
    requires 0.0 <= s <= 1.0
    ensures t >= 0.0 ==> 0.0 <= Times(t, s) <= t
    ensures t <= 0.0 ==> t <= Times(t, s) <= 0.0
    ensures s == 1.0 ==> Times(t, s) == t
  {
    var u := 1.0 - s;
    assert t * s + t * u == t * (s + u) == t;
    if t >= 0.0 {
      ProductIsNonNegative(t, s);
      ProductIsNonNegative(t, u);
    } else {
      ProductIsNonNegative(-t, s);
      ProductIsNonNegative(-t, u);
    }
  }

  /** The score is always between 0 and 100 and never falls when confidence rises. */
  lemma ScoreIsMonotone(total: int, low: real, high: real)
    requires low <= high
    ensures 0 <= Score(total, low) <= Score(total, high) <= 100
  {
    ScaledIsNearer(total, low);
    ScaledIsNearer(total, high);
    assert Scale(low) <= Scale(high);
    hide Scale, Times, HalfEven;
    if total > 0 {
      Stretch(total as real, Scale(low), Scale(high));
      HalfEvenIsMonotone(Times(total as real, Scale(low)), Times(total as real, Scale(high)));
    }
  }

  lemma Stretch(t: real, a: real, b: real)
    requires t >= 0.0 && a <= b
    ensures Times(t, a) <= Times(t, b)
  {
    ProductIsNonNegative(t, b - a);
    assert t * a + t * (b - a) == t * (a + (b - a));
  }

  /** A higher score is never a lower level. */
  lemma LevelIsMonotone(a: int, b: int)
    requires a <= b
    ensures Severity(LevelOf(a)) <= Severity(LevelOf(b))
    ensures Severity(LevelOf(a)) == (if a > 0 then 1 else 0) + (if a >= 25 then 1 else 0) + (if a >= 50 then 1 else 0)
                                    + (if a >= 75 then 1 else 0)
  {
  }

  function Severity(l: Level): nat {
    match l
    case Info => 0
    case Low => 1
    case Medium => 2
    case High => 3
    case Critical => 4
  }

  /** Under the danger basis governance weighs nothing, so the score is the danger score, whatever the inventory says. */
  lemma DangerBasisIgnoresGovernance(kind: int, g: Governed, h: Governed, present: bool, other: bool, p: Policy, rest: seq<Factor>,
                                     confidence: real)
    requires p.danger && forall f :: f in rest ==> f.id !in GOVERNANCE
    ensures Score(Subtotal(kind, g, present, p, rest), confidence) == Score(DangerSubtotal(kind, g, present, p, rest), confidence)
    ensures Score(Subtotal(kind, g, present, p, rest), confidence) == Score(Subtotal(kind, h, other, p, rest), confidence)
  {
    assert GovernanceFactors(g, present, p) == [] && GovernanceFactors(h, other, p) == [];
    hide GovernanceFactors, Score;
    SumExceptNone(Base(kind, g, present, p, rest), GOVERNANCE);
  }

  /** Under the combined basis the two differ by exactly the governance weights. */
  lemma CombinedBasisAddsGovernance(kind: int, g: Governed, present: bool, p: Policy, rest: seq<Factor>)
    requires forall f :: f in rest ==> f.id !in GOVERNANCE
    ensures Subtotal(kind, g, present, p, rest)
            == DangerSubtotal(kind, g, present, p, rest) + Sum(GovernanceFactors(g, present, p))
  {
    GovernanceIdsOnly(g, present, p);
    hide GovernanceFactors;
    var first, mid := [Factor("kind", kind)], GovernanceFactors(g, present, p);
    SumAppend(first + mid, rest);
    SumAppend(first, mid);
    SumExceptAppend(first + mid, rest);
    SumExceptAppend(first, mid);
    SumExceptNone(rest, GOVERNANCE);
    SumExceptNone(first, GOVERNANCE);
    AllExcepted(mid);
    hide Sum, SumExcept;
  }

  lemma GovernanceIdsOnly(g: Governed, present: bool, p: Policy)
    ensures forall f :: f in GovernanceFactors(g, present, p) ==> f.id in GOVERNANCE
  {
  }

  lemma {:induction false} SumExceptAppend(a: seq<Factor>, b: seq<Factor>)
    ensures SumExcept(a + b, GOVERNANCE) == SumExcept(a, GOVERNANCE) + SumExcept(b, GOVERNANCE)
    decreases |b|
  {
    if b == [] {
      assert a + b == a;
    } else {
      assert (a + b)[..|a + b| - 1] == a + b[..|b| - 1];
      SumExceptAppend(a, b[..|b| - 1]);
    }
  }

  lemma {:induction false} AllExcepted(fs: seq<Factor>)
    requires forall f :: f in fs ==> f.id in GOVERNANCE
    ensures SumExcept(fs, GOVERNANCE) == 0
    decreases |fs|
  {
    if fs != [] {
      assert fs[|fs| - 1] in fs;
      AllExcepted(fs[..|fs| - 1]);
    }
  }
}
