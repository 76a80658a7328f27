/** The grouping law of merged autonomy: merging some reports first and the rest later gives what merging all of them at
    once gives, so a fleet may merge in any tree of partial merges. */
module AutonomyRegrouping {
  import opened Autonomy
  import opened AutonomyClassifier
  import opened AutonomyMerge
  import opened AutonomyLaws

  function AsSource(merged: (Option<Block>, bool)): Source {
    if merged.0.Some? then Record(merged.0.value) else Malformed
  }

  // ---------------------------------------------------------------- the classification is the same

  function Effective(f: Finding, blocks: seq<Block>): Initiation {
    Raise(Initiations(blocks), ObservedInitiation(f))
  }

  predicate BypassedWith(f: Finding, blocks: seq<Block>) {
    AnyBypassed(blocks) || BypassEvidence(f)
  }

  lemma ClassifiedIs(f: Finding, blocks: seq<Block>)
    requires Applicable(f)
    ensures Classified(f, blocks) == Interval(f, BypassedWith(f, blocks), Effective(f, blocks))
  {
  }

  lemma EffectiveIsGreatest(f: Finding, blocks: seq<Block>)
    ensures InitiationRank(ObservedInitiation(f)) <= InitiationRank(Effective(f, blocks))
    ensures forall b :: b in blocks ==> Rank(b, InitiationBound) <= InitiationRank(Effective(f, blocks))
    ensures Effective(f, blocks) == ObservedInitiation(f) || exists b :: b in blocks && b.initiation == Effective(f, blocks)
  {
    hide ObservedInitiation;
  }

  lemma ClassifiedEvidence(f: Finding, s: seq<Block>)
    requires Applicable(f)
    ensures Classified(f, s).initiation == Effective(f, s)
    ensures Classified(f, s).oversight.Bypassed? <==> BypassedWith(f, s)
  {
    ClassifiedIs(f, s);
    hide Classified, Effective, BypassedWith, Ordered, RawBasis, FloorItems, Highest;
  }

  lemma MergedEvidence(f: Finding, s: seq<Block>)
    requires Applicable(f)
    ensures MergedBlock(f, s).oversight.Bypassed? <==> BypassedWith(f, s)
    ensures MergedBlock(f, s).initiation == Effective(f, s)
  {
    ClassifiedEvidence(f, s);
    MergedRanks(f, s, OversightBound);
    MergedRanks(f, s, InitiationBound);
    EffectiveIsGreatest(f, s);
    hide Classified, Effective, MergedBlock, BypassEvidence, Width, Applicable, ObservedInitiation;
    assert forall b :: b in s && b.oversight.Bypassed? ==> BypassedWith(f, s);
    hide BypassedWith;
    EvidenceWidths(Classified(f, s), s, MergedBlock(f, s), BypassedWith(f, s));
  }

  lemma EvidenceWidths(c: Block, s: seq<Block>, m: Block, bypassed: bool)
    requires c.oversight.Bypassed? <==> bypassed
    requires forall b :: b in s && b.oversight.Bypassed? ==> bypassed
    requires forall b :: b in s ==> Rank(b, InitiationBound) <= InitiationRank(c.initiation)
    requires OversightRank(m.oversight) == Width(c, s, OversightBound)
    requires InitiationRank(m.initiation) == Width(c, s, InitiationBound)
    ensures (m.oversight.Bypassed? <==> bypassed) && m.initiation == c.initiation
  {
    WidthIsGreatest(c, s, OversightBound);
    WidthIsGreatest(c, s, InitiationBound);
    hide Width;
  }

  lemma RegroupClassified(f: Finding, s: seq<Block>, t: seq<Block>)
    requires Applicable(f)
    ensures Classified(f, s + t) == Classified(f, [MergedBlock(f, s)] + t)
  {
    var m := MergedBlock(f, s);
    MergedEvidence(f, s);
    hide MergedBlock, Classified, Interval, Effective, BypassedWith;
    RegroupBypassed(f, s, t, m);
    RegroupEffective(f, s, t, m);
    ClassifiedIs(f, s + t);
    ClassifiedIs(f, [m] + t);
  }

  lemma RegroupEffective(f: Finding, s: seq<Block>, t: seq<Block>, m: Block)
    requires m.initiation == Effective(f, s)
    ensures Effective(f, s + t) == Effective(f, [m] + t)
  {
    EffectiveIsGreatest(f, s);
    EffectiveIsGreatest(f, s + t);
    EffectiveIsGreatest(f, [m] + t);
    EffectiveGrows(f, s, t);
    hide Effective, ObservedInitiation;
    var x, y := s + t, [m] + t;
    var e, d := Effective(f, x), Effective(f, y);
    assert m in y && Rank(m, InitiationBound) <= InitiationRank(d);
    forall b | b in x ensures Rank(b, InitiationBound) <= InitiationRank(d) {
      if b !in s { assert b in y; }
    }
    forall b | b in y ensures Rank(b, InitiationBound) <= InitiationRank(e) {
      if b in t { assert b in x; }
    }
    AtMost(f, x, InitiationRank(d));
    AtMost(f, y, InitiationRank(e));
  }

  lemma AtMost(f: Finding, blocks: seq<Block>, rank: int)
    requires forall b :: b in blocks ==> Rank(b, InitiationBound) <= rank
    requires InitiationRank(ObservedInitiation(f)) <= rank
    ensures InitiationRank(Effective(f, blocks)) <= rank
  {
    EffectiveIsGreatest(f, blocks);
    hide Effective, ObservedInitiation;
    if Effective(f, blocks) != ObservedInitiation(f) {
      var b :| b in blocks && b.initiation == Effective(f, blocks);
      assert Rank(b, InitiationBound) <= rank;
    }
  }

  lemma EffectiveGrows(f: Finding, s: seq<Block>, t: seq<Block>)
    ensures InitiationRank(Effective(f, s)) <= InitiationRank(Effective(f, s + t))
  {
    EffectiveIsGreatest(f, s);
    EffectiveIsGreatest(f, s + t);
    hide Effective, ObservedInitiation;
    if Effective(f, s) != ObservedInitiation(f) {
      var b :| b in s && b.initiation == Effective(f, s);
      assert b in s + t;
      assert Rank(b, InitiationBound) == InitiationRank(Effective(f, s));
    }
  }

  lemma RegroupBypassed(f: Finding, s: seq<Block>, t: seq<Block>, m: Block)
    requires m.oversight.Bypassed? <==> BypassedWith(f, s)
    ensures BypassedWith(f, s + t) <==> BypassedWith(f, [m] + t)
  {
    hide BypassEvidence;
    if AnyBypassed(s) { var b :| b in s && b.oversight.Bypassed?; assert b in s + t && m in [m] + t; }
    if AnyBypassed(t) { var b :| b in t && b.oversight.Bypassed?; assert b in s + t && b in [m] + t; }
  }

  // ---------------------------------------------------------------- the widths are the same

  lemma ClassifiedGrows(f: Finding, s: seq<Block>, t: seq<Block>)
    requires Applicable(f)
    ensures Wider(Classified(f, s), Classified(f, s + t))
  {
    EffectiveGrows(f, s, t);
    ClassifiedIs(f, s);
    ClassifiedIs(f, s + t);
    hide Classified, Effective, Interval, BypassEvidence, Wider;
    if AnyBypassed(s) { var b :| b in s && b.oversight.Bypassed?; assert b in s + t; }
    IntervalMonotone(f, BypassedWith(f, s), Effective(f, s), BypassedWith(f, s + t), Effective(f, s + t));
  }

  lemma WidthIsGreatest(c: Block, blocks: seq<Block>, bound: Bound)
    ensures Rank(c, bound) <= Width(c, blocks, bound)
    ensures forall b :: b in blocks ==> Rank(b, bound) <= Width(c, blocks, bound)
    ensures Width(c, blocks, bound) == Rank(c, bound) || exists b :: b in blocks && Rank(b, bound) == Width(c, blocks, bound)
  {
  }

  lemma RegroupWidth(c: Block, k: Block, s: seq<Block>, t: seq<Block>, m: Block, bound: Bound)
    requires Rank(k, bound) <= Rank(c, bound) && Rank(m, bound) == Width(k, s, bound)
    ensures Width(c, s + t, bound) == Width(c, [m] + t, bound)
    ensures Rank(m, bound) <= Width(c, s + t, bound)
  {
    WidthIsGreatest(c, s + t, bound);
    WidthIsGreatest(c, [m] + t, bound);
    WidthIsGreatest(k, s, bound);
    hide Width, Rank;
    var x, y := s + t, [m] + t;
    assert m in y;
    forall b | b in x ensures Rank(b, bound) <= Width(c, y, bound) { if b !in s { assert b in y; } }
    if Rank(m, bound) != Rank(k, bound) {
      var b :| b in s && Rank(b, bound) == Rank(m, bound);
      assert b in x;
    }
    forall b | b in y ensures Rank(b, bound) <= Width(c, x, bound) { if b in t { assert b in x; } }
  }

  // ---------------------------------------------------------------- the notes are the same

  // Among the notes akin to `it`, m carries exactly the strongest of s at width w.
  ghost predicate Carries(m: Block, s: seq<Block>, w: int, it: Item) {
    && (forall x :: Akin(x, it) ==> (x in m.basis <==> Strongest(s, w, x)))
    && (forall x :: Akin(x, it) && SetBy(s, w, x) ==> Dominated(s, w, x))
  }

  ghost predicate Dominated(s: seq<Block>, w: int, x: Item) {
    exists y :: Akin(y, x) && Strongest(s, w, y) && SortKey(x.value) <= SortKey(y.value)
  }

  lemma SetByIsDominated(s: seq<Block>, w: int, x: Item)
    requires AllValid(s) && SetBy(s, w, x)
    ensures Dominated(s, w, x)
  {
    hide SetBy, AllValid, SortKey;
    SomeStrongest(s, w, x);
    var y :| Strongest(s, w, y) && Akin(y, x);
    assert Akin(x, y);
  }

  lemma SetByParts(a: seq<Block>, b: seq<Block>, w: int, x: Item)
    ensures SetBy(a + b, w, x) <==> SetBy(a, w, x) || SetBy(b, w, x)
  {
    hide Rank;
    forall k | k in a || k in b ensures k in a + b { }
  }

  lemma ThroughM(s: seq<Block>, t: seq<Block>, m: Block, w: int, it: Item)
    requires Carries(m, s, w, it)
    requires forall x :: Akin(x, it) ==> (SetBy(s + t, w, x) <==> SetBy(s, w, x) || SetBy(t, w, x))
    requires forall x :: Akin(x, it) ==> (SetBy([m] + t, w, x) <==> x in m.basis || SetBy(t, w, x))
    ensures Strongest(s + t, w, it) <==> Strongest([m] + t, w, it)
  {
    hide SetBy, SortKey;
    if Strongest(s + t, w, it) {
      forall x | SetBy([m] + t, w, x) && Akin(x, it) ensures SortKey(x.value) <= SortKey(it.value) {
        assert SetBy(s + t, w, x);
      }
    }
    if Strongest([m] + t, w, it) {
      assert SetBy(s + t, w, it);
      forall x | SetBy(s + t, w, x) && Akin(x, it) ensures SortKey(x.value) <= SortKey(it.value) {
        if SetBy(s, w, x) {
          var y :| Akin(y, x) && Strongest(s, w, y) && SortKey(x.value) <= SortKey(y.value);
          assert Akin(y, it) && y in m.basis && SetBy([m] + t, w, y);
        }
      }
    }
  }

  lemma Aside(s: seq<Block>, t: seq<Block>, m: Block, w: int, it: Item)
    requires forall x :: Akin(x, it) ==> (SetBy(s + t, w, x) <==> SetBy(t, w, x))
    requires forall x :: Akin(x, it) ==> (SetBy([m] + t, w, x) <==> SetBy(t, w, x))
    ensures Strongest(s + t, w, it) <==> Strongest([m] + t, w, it)
  {
    hide SetBy, SortKey;
    forall x | Akin(x, it) ensures SetBy(s + t, w, x) <==> SetBy([m] + t, w, x) { }
    assert Akin(it, it);
  }

  lemma RegroupStrongest(s: seq<Block>, t: seq<Block>, m: Block, w: int, it: Item)
    requires Rank(m, it.bound) == w ==> Carries(m, s, w, it)
    requires Rank(m, it.bound) != w ==> forall b :: b in s ==> Rank(b, it.bound) != w
    ensures Strongest(s + t, w, it) <==> Strongest([m] + t, w, it)
  {
    hide Strongest, Carries;
    forall x | Akin(x, it)
      ensures SetBy(s + t, w, x) <==> SetBy(s, w, x) || SetBy(t, w, x)
      ensures SetBy([m] + t, w, x) <==> (Rank(m, it.bound) == w && x in m.basis) || SetBy(t, w, x)
      ensures Rank(m, it.bound) != w ==> !SetBy(s, w, x)
    {
      SetByParts(s, t, w, x);
      SetByParts([m], t, w, x);
      assert m in [m];
    }
    hide SetBy, Rank;
    if Rank(m, it.bound) == w { ThroughM(s, t, m, w, it); } else { Aside(s, t, m, w, it); }
  }

  lemma MergedCarries(f: Finding, s: seq<Block>, w: int, it: Item)
    requires Applicable(f) && AllValid(s) && it.rule != DeclaredAboveCeiling
    requires Widened(Classified(f, s), s, it.bound) && w == Width(Classified(f, s), s, it.bound)
    ensures Carries(MergedBlock(f, s), s, w, it)
  {
    hide Classified, MergedBlock, Strongest, SetBy, Width;
    forall x | Akin(x, it)
      ensures x in MergedBlock(f, s).basis <==> Strongest(s, w, x)
      ensures SetBy(s, w, x) ==> Dominated(s, w, x)
    {
      MergedStrongest(f, s, w, x);
      if SetBy(s, w, x) { SetByIsDominated(s, w, x); }
    }
  }

  lemma MergedStrongest(f: Finding, s: seq<Block>, w: int, x: Item)
    requires Applicable(f) && AllValid(s) && x.rule != DeclaredAboveCeiling
    requires Widened(Classified(f, s), s, x.bound) && w == Width(Classified(f, s), s, x.bound)
    ensures x in MergedBlock(f, s).basis <==> Strongest(s, w, x)
  {
    hide Classified, MergedBlock, Strongest, Width, ValidBlock, Widened;
    MergedBasisIs(f, s);
    assert x in MergedBlock(f, s).basis <==> MergedNote(f, s, x);
  }

  lemma RegroupNote(f: Finding, s: seq<Block>, t: seq<Block>, it: Item)
    requires Applicable(f) && AllValid(s) && AllValid(t) && it.rule != DeclaredAboveCeiling
    ensures var c := Classified(f, s + t); NoteHolds(c, s + t, it) <==> NoteHolds(c, [MergedBlock(f, s)] + t, it)
  {
    var c, k, m := Classified(f, s + t), Classified(f, s), MergedBlock(f, s);
    ClassifiedGrows(f, s, t);
    MergedRanks(f, s, it.bound);
    assert Rank(k, it.bound) <= Rank(c, it.bound);
    hide Classified, MergedBlock, Strongest, Rank, ValidBlock, Carries;
    RegroupWidth(c, k, s, t, m, it.bound);
    WidthIsGreatest(k, s, it.bound);
    hide Width;
    if Widened(c, s + t, it.bound) {
      var w := Width(c, s + t, it.bound);
      if Rank(m, it.bound) == w { MergedCarries(f, s, w, it); }
      RegroupStrongest(s, t, m, w, it);
    }
  }

  // ---------------------------------------------------------------- the declared level is the same

  lemma RegroupDeclared(f: Finding, s: seq<Block>, t: seq<Block>)
    requires Applicable(f) && f.shadow == Some(false)
    ensures var x, y := Declarations(f, s + t), Declarations(f, [MergedBlock(f, s)] + t);
            (x == [] <==> y == []) && (x != [] ==> Lowest(x) == Lowest(y))
  {
    var m := MergedBlock(f, s);
    var earlier, rest := Declarations(f, s), Declarations(f, t);
    hide Declares;
    forall n
      ensures n in Declarations(f, s + t) <==> n in earlier || n in rest
      ensures n in Declarations(f, [m] + t) <==> n in Declarations(f, [m]) || n in rest
    {
      hide Declarations, MergedBlock;
      DeclaresParts(f, s, t, n);
      DeclaresParts(f, [m], t, n);
    }
    MergedDeclares(f, s);
    hide Declarations, MergedBlock, Lowest;
    SameLowest(earlier, rest, Declarations(f, [m]), Declarations(f, s + t), Declarations(f, [m] + t));
  }

  lemma MergedDeclares(f: Finding, s: seq<Block>)
    requires Applicable(f) && f.shadow == Some(false)
    ensures Declarations(f, [MergedBlock(f, s)]) == if Declarations(f, s) == [] then [] else [Lowest(Declarations(f, s))]
  {
    MergedFields(f, s);
    DeclarationOfOne(f, MergedBlock(f, s));
    hide MergedBlock, Lowest, Declarations;
    if Declarations(f, s) != [] {
      assert Declarations(f, s)[0] in Declarations(f, s);
    }
  }

  lemma DeclarationOfOne(f: Finding, m: Block)
    ensures Declarations(f, [m]) == if m.declared.Some? && Some(m.declared.value.source) == f.registryMatch
                                    then [m.declared.value.level] else []
  {
    assert [m][..0] == [];
    assert Declarations(f, [m][..0]) == [];
  }

  lemma DeclaresParts(f: Finding, a: seq<Block>, b: seq<Block>, n: int)
    ensures Declares(f, a + b, n) <==> Declares(f, a, n) || Declares(f, b, n)
  {
    forall k | k in a || k in b ensures k in a + b { }
  }

  lemma SameLowest(earlier: seq<int>, rest: seq<int>, kept: seq<int>, x: seq<int>, y: seq<int>)
    requires kept == if earlier == [] then [] else [Lowest(earlier)]
    requires forall n :: n in x <==> n in earlier || n in rest
    requires forall n :: n in y <==> n in kept || n in rest
    ensures x == [] <==> y == []
    ensures x != [] ==> Lowest(x) == Lowest(y)
  {
    hide Lowest;
    if earlier != [] { assert Lowest(earlier) in kept; assert Lowest(earlier) in x && Lowest(earlier) in y; }
    if earlier == [] { assert kept == []; }
    if x != [] {
      var n := x[0];
      assert n in x;
      if n in rest { assert n in y; } else { assert n in earlier; }
    }
    if y != [] {
      var n := y[0];
      assert n in y;
      if n in rest { assert n in x; } else { assert n in kept; }
    }
    if x != [] {
      assert Lowest(y) in y && Lowest(y) in x;
      assert Lowest(x) in x;
      assert Lowest(y) <= Lowest(x);
    }
  }

  // ---------------------------------------------------------------- the law

  lemma RegroupEvidence(f: Finding, s: seq<Block>, t: seq<Block>)
    requires Applicable(f) && AllValid(s) && AllValid(t)
    ensures SameEvidence(f, s + t, [MergedBlock(f, s)] + t)
  {
    hide Applicable, Classified, MergedBlock, Width, NoteHolds, Declarations, Lowest, ValidBlock, Rank;
    var m := MergedBlock(f, s);
    var x, y := s + t, [m] + t;
    var c, k := Classified(f, x), Classified(f, s);
    RegroupClassified(f, s, t);
    ClassifiedGrows(f, s, t);
    forall bound: Bound ensures Width(c, x, bound) == Width(c, y, bound) {
      assert Rank(k, bound) <= Rank(c, bound);
      MergedRanks(f, s, bound);
      RegroupWidth(c, k, s, t, m, bound);
    }
    forall it: Item | it.rule != DeclaredAboveCeiling ensures NoteHolds(c, x, it) <==> NoteHolds(c, y, it) {
      RegroupNote(f, s, t, it);
    }
    if f.shadow == Some(false) { RegroupDeclared(f, s, t); }
  }

  lemma RegroupBlocks(f: Finding, s: seq<Block>, t: seq<Block>)
    requires Applicable(f) && AllValid(s) && AllValid(t)
    ensures ValidBlock(MergedBlock(f, s))
    ensures MergedBlock(f, s + t) == MergedBlock(f, [MergedBlock(f, s)] + t)
  {
    hide MergedBlock, ValidBlock, SameEvidence, Applicable;
    MergedIsValid(f, s);
    RegroupEvidence(f, s, t);
    SameEvidenceSameBlock(f, s + t, [MergedBlock(f, s)] + t);
  }

  /** Merging a partial merge with the remaining sources gives the merge of all the sources: bounds, basis, declared level
      and understated flag. */
  lemma Regrouping(f: Finding, s: seq<Source>, t: seq<Source>)
    ensures Merged(f, s + t) == Merged(f, [AsSource(Merged(f, s))] + t)
  {
    if Applicable(f) {
      var a, b := Valids(s), Valids(t);
      var m := MergedBlock(f, a);
      RegroupBlocks(f, a, b);
      hide MergedBlock, ValidBlock;
      ValidsOfParts(s, t);
      ValidsOfParts([Record(m)], t);
      assert Record(m) in [Record(m)];
      forall x ensures x in Valids([Record(m)]) <==> x == m { }
      SameBlocksSameMerge(f, Valids(s + t), a + b);
      SameBlocksSameMerge(f, Valids([Record(m)] + t), [m] + b);
    }
  }

  lemma ValidsOfParts(s: seq<Source>, t: seq<Source>)
    ensures forall b :: b in Valids(s + t) <==> b in Valids(s) + Valids(t)
  {
    hide ValidBlock;
    forall b: Block ensures Record(b) in s + t <==> Record(b) in s || Record(b) in t { }
  }
}
