/** What a fleet may rely on when it merges autonomy blocks: the merged interval contains every source, is itself a
    well-formed block, and is the same for every order, repetition and grouping of the sources. */
module AutonomyLaws {
  import opened Autonomy
  import opened AutonomyClassifier
  import opened AutonomyMerge
  import opened Text

  // ---------------------------------------------------------------- bounds

  lemma ClassifiedIsValid(f: Finding, blocks: seq<Block>)
    requires Applicable(f)
    ensures ValidBlock(Classified(f, blocks)) && SingleValued(Classified(f, blocks).basis)
    ensures forall it :: it in Classified(f, blocks).basis ==> it.rule != DeclaredAboveCeiling
  {
    hide Interval, BypassEvidence, ObservedInitiation, AnyBypassed, ValidBlock;
    IntervalIsValid(f, AnyBypassed(blocks) || BypassEvidence(f), Raise(Initiations(blocks), ObservedInitiation(f)));
  }

  lemma MergedRanks(f: Finding, blocks: seq<Block>, bound: Bound)
    requires Applicable(f)
    ensures Rank(MergedBlock(f, blocks), bound) == Width(Classified(f, blocks), blocks, bound)
  {
    hide Classified, Notes, Ordered, Declarations, Setters, Widest;
    var c := Classified(f, blocks);
    if bound.OversightBound? && Widened(c, blocks, bound) {
      var setters := Setters(blocks, bound, Width(c, blocks, bound));
      assert setters[0] in setters;
    }
    if bound.InitiationBound? && Widened(c, blocks, bound) {
      var setters := Setters(blocks, bound, Width(c, blocks, bound));
      assert setters[0] in setters;
    }
  }

  /** The merged interval admits at least what every source admits, and at least what the finding alone shows. */
  lemma MergedWidens(f: Finding, blocks: seq<Block>)
    requires Applicable(f)
    ensures forall b :: b in blocks ==> Wider(b, MergedBlock(f, blocks))
    ensures Wider(Classify(f, false, None).value, MergedBlock(f, blocks))
  {
    forall bound: Bound ensures Rank(MergedBlock(f, blocks), bound) == Width(Classified(f, blocks), blocks, bound) {
      MergedRanks(f, blocks, bound);
    }
    ClassifyMonotone(f, false, None, AnyBypassed(blocks), Initiations(blocks));
    hide MergedBlock, Classify, Widest;
  }

  // ---------------------------------------------------------------- basis

  predicate Exceeds(f: Finding, blocks: seq<Block>)
    requires Applicable(f)
  {
    && Registered(f, blocks)
    && Width(Classified(f, blocks), blocks, Floor) <= Lowest(Declarations(f, blocks))
    && Width(Classified(f, blocks), blocks, Ceiling) < Lowest(Declarations(f, blocks))
  }

  ghost predicate MergedNote(f: Finding, blocks: seq<Block>, it: Item)
    requires Applicable(f)
  {
    if it.rule == DeclaredAboveCeiling
    then Exceeds(f, blocks) && it == Item(Ceiling, DeclaredAboveCeiling, Level(Lowest(Declarations(f, blocks))))
    else NoteHolds(Classified(f, blocks), blocks, it)
  }

  function Above(f: Finding, blocks: seq<Block>): seq<Item>
    requires Applicable(f)
  {
    if Exceeds(f, blocks) then [Item(Ceiling, DeclaredAboveCeiling, Level(Lowest(Declarations(f, blocks))))] else []
  }

  function Raw(f: Finding, blocks: seq<Block>): seq<Item>
    requires Applicable(f)
  {
    Notes(Classified(f, blocks), blocks) + Above(f, blocks)
  }

  lemma MergedBasis(f: Finding, blocks: seq<Block>)
    requires Applicable(f)
    ensures MergedBlock(f, blocks).basis == Ordered(Raw(f, blocks))
  {
    hide Classified, Notes, Ordered, Declarations, Widest, OversightAt, InitiationAt;
    var c := Classified(f, blocks);
    assert Notes(c, blocks) + [] == Notes(c, blocks);
  }

  lemma LowestIsDeclared(f: Finding, blocks: seq<Block>)
    requires AllValid(blocks) && Declarations(f, blocks) != []
    ensures IsLevel(Lowest(Declarations(f, blocks)))
    ensures f.registryMatch.Some? && !Blank(f.registryMatch.value)
  {
    hide Declarations, Lowest, ValidItems, Blank;
    var low := Lowest(Declarations(f, blocks));
    assert Declares(f, blocks, low);
    var b :| b in blocks && b.declared == Some(Declared(low, f.registryMatch.value));
    assert ValidBlock(b);
  }

  lemma AboveIs(f: Finding, blocks: seq<Block>)
    requires Applicable(f) && AllValid(blocks)
    ensures ValidItems(Above(f, blocks)) && SingleValued(Above(f, blocks))
    ensures forall it :: it in Above(f, blocks) <==> it.rule == DeclaredAboveCeiling && MergedNote(f, blocks, it)
  {
    if Registered(f, blocks) { LowestIsDeclared(f, blocks); }
    hide Classified, NoteHolds, Declarations, Lowest, Width;
  }

  lemma RawHolds(f: Finding, blocks: seq<Block>)
    requires Applicable(f) && AllValid(blocks)
    ensures forall it :: it in Raw(f, blocks) <==> MergedNote(f, blocks, it)
    ensures ValidItems(Raw(f, blocks)) && SingleValued(Raw(f, blocks))
  {
    ClassifiedIsValid(f, blocks);
    NotesAre(Classified(f, blocks), blocks);
    AboveIs(f, blocks);
    hide Classified, Notes, NoteHolds, ValidBlock, Declarations, Lowest, Exceeds, Above, ValidItem;
  }

  /** The basis of a merged block holds a note exactly when a block that set the bound, or the classifier, gives it. */
  lemma MergedBasisIs(f: Finding, blocks: seq<Block>)
    requires Applicable(f) && AllValid(blocks)
    ensures forall it :: it in MergedBlock(f, blocks).basis <==> MergedNote(f, blocks, it)
    ensures ValidItems(MergedBlock(f, blocks).basis) && |MergedBlock(f, blocks).basis| <= MAX_BASIS
  {
    MergedBasis(f, blocks);
    RawHolds(f, blocks);
    hide MergedBlock, Raw, MergedNote, Ordered, ValidItem;
    OrderedKeepsEveryRule(Raw(f, blocks));
    OrderedIsValid(Raw(f, blocks));
    OrderedOfSingleValued(Raw(f, blocks));
  }

  // ---------------------------------------------------------------- well-formedness

  /** Every merge of valid blocks is a valid block; in particular its floor never exceeds its ceiling. */
  lemma MergedIsValid(f: Finding, blocks: seq<Block>)
    requires Applicable(f) && AllValid(blocks)
    ensures ValidBlock(MergedBlock(f, blocks))
  {
    MergedBasisIs(f, blocks);
    ClassifiedIsValid(f, blocks);
    WidthsAreLevels(Classified(f, blocks), blocks);
    if Registered(f, blocks) { LowestIsDeclared(f, blocks); }
    hide Classified, Notes, Ordered, Declarations, Lowest, Width, OversightAt, InitiationAt, ValidItems, Blank, Title, Exceeds,
         MergedNote;
  }

  lemma WidthsAreLevels(c: Block, blocks: seq<Block>)
    requires ValidBlock(c) && AllValid(blocks)
    ensures IsLevel(Width(c, blocks, Floor)) && IsLevel(Width(c, blocks, Ceiling))
    ensures Width(c, blocks, Floor) <= Width(c, blocks, Ceiling)
  {
    hide ValidItems, Blank, Widest;
    var w := Width(c, blocks, Floor);
    if w != c.floor {
      var b :| b in blocks && Rank(b, Floor) == w;
      assert ValidBlock(b);
      assert Rank(b, Ceiling) <= Width(c, blocks, Ceiling);
    }
    if Width(c, blocks, Ceiling) != c.ceiling {
      var b :| b in blocks && Rank(b, Ceiling) == Width(c, blocks, Ceiling);
      assert ValidBlock(b);
    }
  }

  // ---------------------------------------------------------------- two source lists that merge to the same block

  ghost predicate SameEvidence(f: Finding, a: seq<Block>, b: seq<Block>)
    requires Applicable(f)
  {
    && Classified(f, a) == Classified(f, b)
    && (forall bound :: Width(Classified(f, a), a, bound) == Width(Classified(f, b), b, bound))
    && (forall it: Item :: it.rule != DeclaredAboveCeiling ==>
                       (NoteHolds(Classified(f, a), a, it) <==> NoteHolds(Classified(f, b), b, it)))
    && (f.shadow == Some(false) ==>
          && (Declarations(f, a) == [] <==> Declarations(f, b) == [])
          && (Declarations(f, a) != [] ==> Lowest(Declarations(f, a)) == Lowest(Declarations(f, b))))
  }

  lemma MergedFields(f: Finding, blocks: seq<Block>)
    requires Applicable(f)
    ensures var m := MergedBlock(f, blocks);
            m.floorLabel == Title(m.floor) && m.ceilingLabel == Title(m.ceiling)
            && m.declared == if Registered(f, blocks)
                             then Some(Declared(Lowest(Declarations(f, blocks)), f.registryMatch.value)) else None
  {
    hide Classified, Notes, Ordered, Lowest, Width, OversightAt, InitiationAt, Title;
  }

  lemma SameRanks(a: Block, b: Block)
    requires forall bound :: Rank(a, bound) == Rank(b, bound)
    ensures a.floor == b.floor && a.ceiling == b.ceiling && a.oversight == b.oversight && a.initiation == b.initiation
  {
    assert Rank(a, Floor) == Rank(b, Floor) && Rank(a, Ceiling) == Rank(b, Ceiling);
    assert Rank(a, OversightBound) == Rank(b, OversightBound) && Rank(a, InitiationBound) == Rank(b, InitiationBound);
  }

  lemma SameEvidenceSameBlock(f: Finding, a: seq<Block>, b: seq<Block>)
    requires Applicable(f) && AllValid(a) && AllValid(b) && SameEvidence(f, a, b)
    ensures MergedBlock(f, a) == MergedBlock(f, b)
  {
    var x, y := MergedBlock(f, a), MergedBlock(f, b);
    SameBasis(f, a, b);
    forall bound: Bound ensures Rank(x, bound) == Rank(y, bound) {
      hide MergedBlock, Classified, Declarations, Lowest, Width, NoteHolds, AllValid;
      MergedRanks(f, a, bound);
      MergedRanks(f, b, bound);
    }
    SameRanks(x, y);
    MergedFields(f, a);
    MergedFields(f, b);
    hide MergedBlock, Classified, Declarations, Lowest, Width, NoteHolds, AllValid, Rank, Title;
  }

  lemma SameBasis(f: Finding, a: seq<Block>, b: seq<Block>)
    requires Applicable(f) && AllValid(a) && AllValid(b) && SameEvidence(f, a, b)
    ensures MergedBlock(f, a).basis == MergedBlock(f, b).basis
  {
    MergedBasis(f, a);
    MergedBasis(f, b);
    RawHolds(f, a);
    RawHolds(f, b);
    forall it: Item ensures MergedNote(f, a, it) <==> MergedNote(f, b, it) {
      hide Classified, NoteHolds, Declarations, Lowest, Width;
    }
    hide MergedNote, Raw, MergedBlock, SameEvidence, Ordered, ValidItems, AllValid;
    SameItemsSameOrder(Raw(f, a), Raw(f, b));
  }

  // ---------------------------------------------------------------- order and repetition

  lemma SameInitiations(a: seq<Block>, b: seq<Block>)
    requires forall x :: x in a <==> x in b
    ensures Initiations(a) == Initiations(b) && AnyBypassed(a) == AnyBypassed(b)
  {
    if b != [] { assert b[0] in a; }
    if a != [] {
      assert a[0] in b;
      var x :| x in a && x.initiation == Initiations(a).value;
      var y :| y in b && y.initiation == Initiations(b).value;
      assert x in b && y in a;
    }
  }

  lemma SameWidth(c: Block, a: seq<Block>, b: seq<Block>, bound: Bound)
    requires forall x :: x in a <==> x in b
    ensures Width(c, a, bound) == Width(c, b, bound)
  {
    hide Widest;
  }

  /** A merge depends only on which valid blocks there are: order and repetition change nothing. */
  lemma MergedDependsOnlyOnSet(f: Finding, s: seq<Source>, t: seq<Source>)
    requires forall b :: ValidBlock(b) ==> (Record(b) in s <==> Record(b) in t)
    ensures Merged(f, s) == Merged(f, t)
  {
    if Applicable(f) {
      hide ValidBlock, MergedBlock;
      SameBlocksSameMerge(f, Valids(s), Valids(t));
    }
  }

  lemma SameBlocksSameMerge(f: Finding, a: seq<Block>, b: seq<Block>)
    requires Applicable(f) && AllValid(a) && AllValid(b) && forall x :: x in a <==> x in b
    ensures MergedBlock(f, a) == MergedBlock(f, b)
  {
    SameInitiations(a, b);
    var c := Classified(f, a);
    assert c == Classified(f, b) by { hide Classify; }
    forall bound: Bound ensures Width(c, a, bound) == Width(c, b, bound) { SameWidth(c, a, b, bound); }
    forall it: Item ensures NoteHolds(c, a, it) <==> NoteHolds(c, b, it) { SameNotes(c, a, b, it); }
    forall n ensures Declares(f, a, n) <==> Declares(f, b, n) { }
    SameDeclarations(f, a, b);
    hide Classified, Declarations, Lowest, Width, MergedBlock, ValidBlock, NoteHolds, Rank, Declares;
    SameEvidenceSameBlock(f, a, b);
  }

  lemma SameNotes(c: Block, a: seq<Block>, b: seq<Block>, it: Item)
    requires forall x :: x in a <==> x in b
    ensures NoteHolds(c, a, it) <==> NoteHolds(c, b, it)
  {
    SameWidth(c, a, b, it.bound);
    hide Width, Rank;
    var w := Width(c, a, it.bound);
    forall x: Item ensures SetBy(a, w, x) <==> SetBy(b, w, x) { }
  }

  lemma SameDeclarations(f: Finding, a: seq<Block>, b: seq<Block>)
    requires forall n :: Declares(f, a, n) <==> Declares(f, b, n)
    ensures Declarations(f, a) == [] <==> Declarations(f, b) == []
    ensures Declarations(f, a) != [] ==> Lowest(Declarations(f, a)) == Lowest(Declarations(f, b))
  {
    var x, y := Declarations(f, a), Declarations(f, b);
    assert forall n :: n in x <==> n in y by { hide Declares; }
    if x != [] { assert x[0] in x; }
    if y != [] { assert y[0] in y; }
  }
}
