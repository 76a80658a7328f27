/** Recording autonomy on a finding in place (apply_autonomy, merge_autonomy and the widening loop of merged_autonomy in
    shadowscan/autonomy.py). */
module AutonomyRecording {
  import opened Autonomy
  import opened AutonomyClassifier
  import opened AutonomyMerge
  import opened Text
  import opened AutonomyLaws

  // An inventory entry: its level, if any, is checked when the inventory is loaded, and so is its id.
  datatype Entry = Entry(agentId: string, level: Option<int>)

  predicate LoadedEntry(entry: Option<Entry>) {
    entry.Some? ==> !Blank(entry.value.agentId) && (entry.value.level.Some? ==> IsLevel(entry.value.level.value))
  }

  predicate DeclaresLevel(entry: Option<Entry>) {
    entry.Some? && entry.value.level.Some?
  }

  // ---------------------------------------------------------------- what one pass records

  function Annotated(c: Block, entry: Option<Entry>): Block {
    if !DeclaresLevel(entry) then c
    else
      var n := entry.value.level.value;
      c.(declared := Some(Declared(n, entry.value.agentId)),
         basis := if c.floor <= n && n > c.ceiling
                  then Ordered(c.basis + [Item(Ceiling, DeclaredAboveCeiling, Level(n))]) else c.basis)
  }

  /** The block apply_autonomy leaves on a finding and whether it tags the finding. */
  function Applied(f: Finding, entry: Option<Entry>): (Option<Block>, bool) {
    if !Applicable(f) then (None, false)
    else
      var b := Annotated(Classify(f, false, None).value, entry);
      (Some(b), Understated(b))
  }

  function Without(tags: seq<string>, tag: string): (r: seq<string>)
    ensures forall t :: t in r <==> t in tags && t != tag
    ensures tag !in tags ==> r == tags
  {
    if tags == [] then []
    else
      var n := |tags| - 1;
      assert tags == tags[..n] + [tags[n]];
      Without(tags[..n], tag) + (if tags[n] != tag then [tags[n]] else [])
  }

  function Retagged(tags: seq<string>, understated: bool): seq<string> {
    Without(tags, UNDERSTATED_TAG) + (if understated then [UNDERSTATED_TAG] else [])
  }

  function WithTags(f: Finding, tags: seq<string>): (r: Finding)
    ensures forall t :: t in r.tags <==> t in tags
  {
    f.(tags := set t | t in tags)
  }

  class Observation {
    const facts: Finding
    var tags: seq<string>
    var block: Option<Block>

    constructor (facts: Finding, tags: seq<string>, block: Option<Block>)
      ensures this.facts == facts && this.tags == tags && this.block == block
    {
      this.facts, this.tags, this.block := facts, tags, block;
    }

    // The finding as classification reads it.
    function View(): Finding
      reads this
    {
      WithTags(facts, tags)
    }

    method Untag()
      modifies this`tags
      ensures tags == Without(old(tags), UNDERSTATED_TAG)
    {
      if UNDERSTATED_TAG in tags {
        tags := Without(tags, UNDERSTATED_TAG);
      }
    }

    method ApplyAutonomy(entry: Option<Entry>)
      modifies this
      ensures block == Applied(old(View()), entry).0
      ensures tags == Retagged(old(tags), Applied(old(View()), entry).1)
    {
      ghost var before := View();
      block := None;
      Untag();
      TagIsIgnored(facts, old(tags), tags);
      var f := View();
      if !Applicable(f) {
        return;
      }
      var autonomy := Classify(f, false, None).value;
      ghost var c := autonomy;
      if DeclaresLevel(entry) {
        var declared := entry.value.level.value;
        autonomy := autonomy.(declared := Some(Declared(declared, entry.value.agentId)));
        if declared < autonomy.floor {
          tags := tags + [UNDERSTATED_TAG];
        } else if declared > autonomy.ceiling {
          autonomy := autonomy.(basis := Ordered(autonomy.basis + [Item(Ceiling, DeclaredAboveCeiling, Level(declared))]));
        }
      }
      assert c.declared == None by { hide BypassEvidence, ObservedInitiation; }
      assert autonomy == Annotated(c, entry);
      block := Some(autonomy);
    }

    method MergeAutonomy(sources: seq<Source>)
      modifies this
      ensures block == Merged(old(View()), sources).0
      ensures tags == Retagged(old(tags), Merged(old(View()), sources).1)
    {
      var autonomy, understated := MergedAutonomy(View(), sources);
      block := None;
      Untag();
      if autonomy.None? {
        return;
      }
      if understated {
        tags := tags + [UNDERSTATED_TAG];
      }
      block := autonomy;
    }
  }

  const BOUNDS: seq<Bound> := [Floor, Ceiling, OversightBound, InitiationBound]

  function Position(bound: Bound): nat {
    match bound
    case Floor => 0
    case Ceiling => 1
    case OversightBound => 2
    case InitiationBound => 3
  }

  /** merged_autonomy: classify with the strongest evidence of the blocks, widen bound by bound, then compare the level
      declared for the agent the finding is registered to. */
  method MergedAutonomy(f: Finding, sources: seq<Source>) returns (block: Option<Block>, understated: bool)
    ensures (block, understated) == Merged(f, sources)
  {
    hide BoundBasis, Width, OversightAt, InitiationAt, Classify, ValidBlock, Title, WithoutDeclared, Ordered, Initiations,
         AnyBypassed, Valids, Declares, Lowest;
    if !Applicable(f) {
      return None, false;
    }
    var blocks := Valids(sources);
    var c := Classify(f, AnyBypassed(blocks), Initiations(blocks)).value;
    var autonomy, basis := Widen(c, blocks);
    var notes :=
      WithoutDeclared(basis[Floor] + basis[Ceiling] + basis[OversightBound] + basis[InitiationBound]);
    assert notes == Notes(c, blocks);
    understated := false;
    var declared := Declarations(f, blocks);
    var source := None;
    if declared != [] && f.shadow == Some(false) {
      var lowest := Lowest(declared);
      SomeoneDeclares(f, blocks, lowest);
      source := Some(Declared(lowest, f.registryMatch.value));
      if lowest < autonomy.floor {
        understated := true;
      } else if lowest > autonomy.ceiling {
        notes := notes + [Item(Ceiling, DeclaredAboveCeiling, Level(lowest))];
      }
    }
    block := Some(autonomy.(floorLabel := Title(autonomy.floor), ceilingLabel := Title(autonomy.ceiling),
                            basis := Ordered(notes), declared := source));
    hide Notes, Declarations;
    assert Notes(c, blocks) + [] == Notes(c, blocks);
  }

  lemma SomeoneDeclares(f: Finding, blocks: seq<Block>, n: int)
    requires n in Declarations(f, blocks)
    ensures f.registryMatch.Some?
  {
  }

  method Widen(c: Block, blocks: seq<Block>) returns (autonomy: Block, basis: map<Bound, seq<Item>>)
    ensures autonomy.floor == Width(c, blocks, Floor) && autonomy.ceiling == Width(c, blocks, Ceiling)
    ensures autonomy.oversight == OversightAt(c, blocks) && autonomy.initiation == InitiationAt(c, blocks)
    ensures forall bound: Bound :: bound in basis && basis[bound] == BoundBasis(c, blocks, bound)
  {
    hide ItemsOf, BoundBasis, Width, OversightAt, InitiationAt;
    autonomy := c;
    basis := map[Floor := ItemsOf(c.basis, Floor), Ceiling := ItemsOf(c.basis, Ceiling),
                 OversightBound := ItemsOf(c.basis, OversightBound), InitiationBound := ItemsOf(c.basis, InitiationBound)];
    for k := 0 to |BOUNDS|
      invariant forall bound: Bound :: bound in basis
      invariant forall bound: Bound ::
                  if Position(bound) < k
                  then At(autonomy, bound) == WidenedValue(c, blocks, bound) && basis[bound] == BoundBasis(c, blocks, bound)
                  else At(autonomy, bound) == At(c, bound) && basis[bound] == ItemsOf(c.basis, bound)
    {
      hide WidenedValue, At;
      autonomy, basis := WidenBound(c, blocks, BOUNDS[k], autonomy, basis);
      assert forall other: Bound :: Position(other) == k ==> other == BOUNDS[k];
    }
    hide WidenedValue, At;
    forall bound: Bound
      ensures At(autonomy, bound) == WidenedValue(c, blocks, bound) && basis[bound] == BoundBasis(c, blocks, bound)
    {
      assert Position(bound) < |BOUNDS|;
    }
    ReadOff(c, blocks, autonomy);
  }

  lemma ReadOff(c: Block, blocks: seq<Block>, autonomy: Block)
    requires forall bound: Bound :: At(autonomy, bound) == WidenedValue(c, blocks, bound)
    ensures autonomy.floor == Width(c, blocks, Floor) && autonomy.ceiling == Width(c, blocks, Ceiling)
    ensures autonomy.oversight == OversightAt(c, blocks) && autonomy.initiation == InitiationAt(c, blocks)
  {
    hide Width, OversightAt, InitiationAt;
    assert At(autonomy, Floor) == WidenedValue(c, blocks, Floor) && At(autonomy, Ceiling) == WidenedValue(c, blocks, Ceiling);
    assert At(autonomy, OversightBound) == WidenedValue(c, blocks, OversightBound);
    assert At(autonomy, InitiationBound) == WidenedValue(c, blocks, InitiationBound);
  }

  method WidenBound(ghost c: Block, blocks: seq<Block>, bound: Bound, autonomy: Block, basis: map<Bound, seq<Item>>)
    returns (wider: Block, notes: map<Bound, seq<Item>>)
    requires At(autonomy, bound) == At(c, bound) && bound in basis && basis[bound] == ItemsOf(c.basis, bound)
    ensures At(wider, bound) == WidenedValue(c, blocks, bound)
    ensures forall other: Bound :: other != bound ==> At(wider, other) == At(autonomy, other)
    ensures notes == basis[bound := BoundBasis(c, blocks, bound)]
  {
    hide Widest, Setters, Ordered, Sorted, Collected, ItemsOf, WidenedValue, At;
    WidenedValueIs(c, blocks, bound);
    SameRank(autonomy, c, bound);
    var classified := Rank(autonomy, bound);
    var widest := Widest(blocks, bound, classified);
    if widest > classified {
      var setters := Setters(blocks, bound, widest);
      wider := Set(autonomy, bound, setters[0]);
      notes := basis[bound := Ordered(Sorted(Collected(setters, bound)))];
    } else {
      wider, notes := autonomy, basis;
    }
  }

  function At(b: Block, bound: Bound): Value {
    match bound
    case Floor => Level(b.floor)
    case Ceiling => Level(b.ceiling)
    case OversightBound => OversightValue(b.oversight)
    case InitiationBound => InitiationValue(b.initiation)
  }

  function WidenedValue(c: Block, blocks: seq<Block>, bound: Bound): Value {
    match bound
    case Floor => Level(Width(c, blocks, Floor))
    case Ceiling => Level(Width(c, blocks, Ceiling))
    case OversightBound => OversightValue(OversightAt(c, blocks))
    case InitiationBound => InitiationValue(InitiationAt(c, blocks))
  }

  lemma SameRank(a: Block, b: Block, bound: Bound)
    requires At(a, bound) == At(b, bound)
    ensures Rank(a, bound) == Rank(b, bound)
  {
  }

  // Taking the first setter's value is what widening a bound means.
  lemma WidenedValueIs(c: Block, blocks: seq<Block>, bound: Bound)
    ensures var setters := Setters(blocks, bound, Width(c, blocks, bound));
            if Widened(c, blocks, bound) then |setters| > 0 && WidenedValue(c, blocks, bound) == At(setters[0], bound)
            else WidenedValue(c, blocks, bound) == At(c, bound)
  {
    hide Widest;
    if Widened(c, blocks, bound) {
      var setters := Setters(blocks, bound, Width(c, blocks, bound));
      var b :| b in blocks && Rank(b, bound) == Width(c, blocks, bound);
      assert b in setters;
      assert setters[0] in setters;
    }
  }

  function Set(b: Block, bound: Bound, setter: Block): (r: Block)
    ensures At(r, bound) == At(setter, bound) && forall other: Bound :: other != bound ==> At(r, other) == At(b, other)
  {
    match bound
    case Floor => b.(floor := setter.floor)
    case Ceiling => b.(ceiling := setter.ceiling)
    case OversightBound => b.(oversight := setter.oversight)
    case InitiationBound => b.(initiation := setter.initiation)
  }

  // ---------------------------------------------------------------- what the recorded block means

  // Classification never reads the tag that recording writes.
  lemma TagIsIgnored(f: Finding, a: seq<string>, b: seq<string>)
    requires forall t :: t != UNDERSTATED_TAG ==> (t in a <==> t in b)
    ensures Applicable(WithTags(f, a)) == Applicable(WithTags(f, b))
    ensures Applicable(f) ==> Classify(WithTags(f, a), false, None) == Classify(WithTags(f, b), false, None)
  {
    var x, y := WithTags(f, a), WithTags(f, b);
    SameTagEvidence(f, a, b);
    forall bypassed: bool ensures Interval(x, bypassed, ObservedInitiation(x)) == Interval(y, bypassed, ObservedInitiation(x)) {
      SameInterval(f, a, b, bypassed, ObservedInitiation(x));
    }
    hide Interval, ObservedInitiation, BypassEvidence;
  }

  lemma SameTagEvidence(f: Finding, a: seq<string>, b: seq<string>)
    requires forall t :: t != UNDERSTATED_TAG ==> (t in a <==> t in b)
    ensures ObservedInitiation(WithTags(f, a)) == ObservedInitiation(WithTags(f, b))
    ensures BypassEvidence(WithTags(f, a)) == BypassEvidence(WithTags(f, b))
  {
    var x, y := WithTags(f, a), WithTags(f, b);
    assert TriggerInitiation(x) == TriggerInitiation(y) by { hide Meets; }
    assert Meets(x.tags, BYPASS_TAGS) == Meets(y.tags, BYPASS_TAGS);
    hide TriggerInitiation, Meets;
  }

  lemma SameInterval(f: Finding, a: seq<string>, b: seq<string>, bypassed: bool, initiation: Initiation)
    requires forall t :: t != UNDERSTATED_TAG ==> (t in a <==> t in b)
    ensures Interval(WithTags(f, a), bypassed, initiation) == Interval(WithTags(f, b), bypassed, initiation)
  {
    hide Meets, Highest, Ordered, Title;
  }

  /** Every recorded block is well formed, declares the entry's level, and carries the above-ceiling note exactly when that
      level exceeds the ceiling. */
  lemma AppliedIsValid(f: Finding, entry: Option<Entry>)
    requires Applicable(f) && LoadedEntry(entry)
    ensures ValidBlock(Applied(f, entry).0.value)
    ensures var b := Applied(f, entry).0.value;
            (exists it :: it in b.basis && it.rule == DeclaredAboveCeiling)
            <==> DeclaresLevel(entry) && entry.value.level.value > b.ceiling
  {
    IntervalIsValid(f, BypassEvidence(f), ObservedInitiation(f));
    var c := Classify(f, false, None).value;
    assert c == Interval(f, BypassEvidence(f), ObservedInitiation(f));
    hide BypassEvidence, ObservedInitiation, Interval, Classify, Blank, Title;
    if DeclaresLevel(entry) && c.floor <= entry.value.level.value && entry.value.level.value > c.ceiling {
      AppendDeclared(c.basis, entry.value.level.value);
    }
    hide Ordered, ValidItems;
  }

  lemma AppendDeclared(basis: seq<Item>, n: int)
    requires ValidItems(basis) && SingleValued(basis) && IsLevel(n)
    requires forall it :: it in basis ==> it.rule != DeclaredAboveCeiling
    ensures var items := basis + [Item(Ceiling, DeclaredAboveCeiling, Level(n))];
            ValidItems(items) && SingleValued(items) && ValidItems(Ordered(items)) && |Ordered(items)| <= MAX_BASIS
            && (forall it :: it in Ordered(items) <==> it in items)
            && Item(Ceiling, DeclaredAboveCeiling, Level(n)) in Ordered(items)
  {
    var items := basis + [Item(Ceiling, DeclaredAboveCeiling, Level(n))];
    OrderedKeepsEveryRule(items);
    OrderedIsValid(items);
    OrderedOfSingleValued(items);
    hide Ordered;
    assert items[|basis|] in items;
  }

  /** Applying twice records what applying once records. */
  lemma ApplyIsIdempotent(f: Finding, tags: seq<string>, entry: Option<Entry>)
    ensures var once := Applied(WithTags(f, tags), entry);
            var retagged := Retagged(tags, once.1);
            Applied(WithTags(f, retagged), entry) == once && Retagged(retagged, once.1) == retagged
  {
    var once := Applied(WithTags(f, tags), entry);
    var retagged := Retagged(tags, once.1);
    TagIsIgnored(f, tags, retagged);
    assert Retagged(retagged, once.1) == retagged by {
      var kept := Without(tags, UNDERSTATED_TAG);
      if once.1 {
        assert retagged[..|retagged| - 1] == kept;
      } else {
        assert retagged == kept;
      }
    }
    hide Classify, Retagged;
  }
}
