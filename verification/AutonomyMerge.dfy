/** Merging the autonomy blocks of several reports of one finding (merged_autonomy in shadowscan/autonomy.py): the result
    admits what every source admits, and depends neither on the order nor on the grouping of the reports. */
module AutonomyMerge {
  import opened Autonomy
  import opened AutonomyClassifier

  // One element of `sources`: anything that is not a block of the right shape is Malformed.
  datatype Source = Malformed | Record(block: Block)

  // ---------------------------------------------------------------- sorting the basis items of one bound

  predicate Before(a: Item, b: Item) {
    RuleOrder(a.rule) < RuleOrder(b.rule) || (a.rule == b.rule && SortKey(a.value) <= SortKey(b.value))
  }

  ghost predicate Ascending(items: seq<Item>) {
    forall i, j :: 0 <= i < j < |items| ==> Before(items[i], items[j])
  }

  function Insert(it: Item, items: seq<Item>): seq<Item> {
    if items == [] || !Before(items[0], it) then [it] + items
    else [items[0]] + Insert(it, items[1..])
  }

  function Sorted(items: seq<Item>): seq<Item> {
    if items == [] then [] else Insert(items[|items| - 1], Sorted(items[..|items| - 1]))
  }

  lemma {:induction false} InsertIsAscending(it: Item, items: seq<Item>)
    requires Ascending(items)
    ensures Ascending(Insert(it, items))
    ensures forall x :: x in Insert(it, items) <==> x == it || x in items
  {
    if items != [] && Before(items[0], it) {
      InsertIsAscending(it, items[1..]);
      var rest := Insert(it, items[1..]);
      forall k | 0 <= k < |rest| ensures Before(items[0], rest[k]) {
        assert rest[k] in rest;
      }
      assert items == [items[0]] + items[1..];
    }
  }

  lemma {:induction false} SortedIsAscending(items: seq<Item>)
    ensures Ascending(Sorted(items))
    ensures forall x :: x in Sorted(items) <==> x in items
    decreases |items|
  {
    if items != [] {
      var n := |items| - 1;
      SortedIsAscending(items[..n]);
      InsertIsAscending(items[n], Sorted(items[..n]));
      assert items == items[..n] + [items[n]];
    }
  }

  lemma {:induction false} LastIsGreatest(items: seq<Item>)
    requires Ascending(items)
    ensures forall it :: it in items ==>
                           it.rule in LastValues(items) && SortKey(it.value) <= SortKey(LastValues(items)[it.rule])
    decreases |items|
  {
    if items != [] {
      var n := |items| - 1;
      LastIsGreatest(items[..n]);
      forall it | it in items
        ensures it.rule in LastValues(items) && SortKey(it.value) <= SortKey(LastValues(items)[it.rule])
      {
        var k :| 0 <= k < |items| && items[k] == it;
        if it.rule == items[n].rule {
          assert k == n || Before(items[k], items[n]);
        } else {
          assert it in items[..n];
        }
      }
    }
  }

  // `it` is one of the items and no item of its rule sorts after it.
  ghost predicate Greatest(items: seq<Item>, it: Item) {
    it in items && forall x :: x in items && x.rule == it.rule ==> SortKey(x.value) <= SortKey(it.value)
  }

  // The value kept for a rule, and why it is the greatest.
  lemma KeptIsGreatest(items: seq<Item>, r: Rule)
    requires ValidItems(items) && r in LastValues(Sorted(items))
    ensures Greatest(items, Item(BoundOf(r), r, LastValues(Sorted(items))[r]))
  {
    hide Sorted, LastValues, Ascending, SortKey;
    var sorted := Sorted(items);
    SortedIsAscending(items);
    LastIsGreatest(sorted);
    LastValuesFrom(sorted);
    var x :| x in sorted && x.rule == r && x.value == LastValues(sorted)[r];
    assert x in items && ValidItem(x);
    assert x == Item(BoundOf(r), r, LastValues(sorted)[r]);
  }

  lemma GreatestIsKept(items: seq<Item>, it: Item)
    requires ValidItems(items) && Greatest(items, it)
    ensures it.rule in LastValues(Sorted(items)) && it == Item(BoundOf(it.rule), it.rule, LastValues(Sorted(items))[it.rule])
  {
    hide Sorted, LastValues, Ascending;
    var sorted := Sorted(items);
    SortedIsAscending(items);
    LastValuesFrom(sorted);
    KeptIsGreatest(items, it.rule);
    var x := Item(BoundOf(it.rule), it.rule, LastValues(sorted)[it.rule]);
    assert ValidItem(x) && ValidItem(it) && SortKey(x.value) == SortKey(it.value);
  }

  lemma OrderedKeepsGreatest(items: seq<Item>)
    requires ValidItems(items)
    ensures forall it :: it in Ordered(Sorted(items)) <==> Greatest(items, it)
    ensures forall x :: x in items ==> exists it :: Greatest(items, it) && it.rule == x.rule
  {
    hide Sorted, Ordered, LastValues, Greatest, ValidItem;
    var sorted := Sorted(items);
    OrderedKeepsEveryRule(sorted);
    forall it: Item ensures it in Ordered(sorted) <==> Greatest(items, it) {
      if it in Ordered(sorted) { KeptIsGreatest(items, it.rule); }
      if Greatest(items, it) { GreatestIsKept(items, it); }
    }
    SortedIsAscending(items);
    LastValuesFrom(sorted);
    forall x | x in items ensures exists it :: Greatest(items, it) && it.rule == x.rule {
      KeptIsGreatest(items, x.rule);
    }
  }

  // ---------------------------------------------------------------- what the blocks say together

  function Valids(sources: seq<Source>): (r: seq<Block>)
    ensures forall b :: b in r <==> ValidBlock(b) && Record(b) in sources
  {
    if sources == [] then []
    else
      var last := sources[|sources| - 1];
      assert sources == sources[..|sources| - 1] + [last];
      Valids(sources[..|sources| - 1]) + (if last.Record? && ValidBlock(last.block) then [last.block] else [])
  }

  ghost predicate AllValid(blocks: seq<Block>) {
    forall b :: b in blocks ==> ValidBlock(b)
  }

  predicate AnyBypassed(blocks: seq<Block>) {
    exists b :: b in blocks && b.oversight.Bypassed?
  }

  function Initiations(blocks: seq<Block>): (r: Option<Initiation>)
    ensures r.None? <==> blocks == []
    ensures r.Some? ==> exists b :: b in blocks && b.initiation == r.value
    ensures forall b :: b in blocks ==> r.Some? && InitiationRank(b.initiation) <= InitiationRank(r.value)
  {
    if blocks == [] then None
    else
      var n := |blocks| - 1;
      assert blocks == blocks[..n] + [blocks[n]];
      var rest := Initiations(blocks[..n]);
      if rest.Some? && InitiationRank(rest.value) >= InitiationRank(blocks[n].initiation) then rest
      else Some(blocks[n].initiation)
  }

  function Widest(blocks: seq<Block>, bound: Bound, low: int): (w: int)
    ensures low <= w && (w == low || exists b :: b in blocks && Rank(b, bound) == w)
    ensures forall b :: b in blocks ==> Rank(b, bound) <= w
  {
    if blocks == [] then low
    else
      var n := |blocks| - 1;
      assert blocks == blocks[..n] + [blocks[n]];
      var rest := Widest(blocks[..n], bound, low);
      if Rank(blocks[n], bound) > rest then Rank(blocks[n], bound) else rest
  }

  function Setters(blocks: seq<Block>, bound: Bound, w: int): (r: seq<Block>)
    ensures forall b :: b in r <==> b in blocks && Rank(b, bound) == w
  {
    if blocks == [] then []
    else
      var n := |blocks| - 1;
      assert blocks == blocks[..n] + [blocks[n]];
      Setters(blocks[..n], bound, w) + (if Rank(blocks[n], bound) == w then [blocks[n]] else [])
  }

  function ItemsOf(items: seq<Item>, bound: Bound): (r: seq<Item>)
    ensures forall it :: it in r <==> it in items && it.bound == bound
  {
    if items == [] then []
    else
      var n := |items| - 1;
      assert items == items[..n] + [items[n]];
      ItemsOf(items[..n], bound) + (if items[n].bound == bound then [items[n]] else [])
  }

  function Collected(setters: seq<Block>, bound: Bound): (r: seq<Item>)
    ensures forall it :: it in r <==> it.bound == bound && exists b :: b in setters && it in b.basis
  {
    if setters == [] then []
    else
      var n := |setters| - 1;
      assert setters == setters[..n] + [setters[n]];
      Collected(setters[..n], bound) + ItemsOf(setters[n].basis, bound)
  }

  function Classified(f: Finding, blocks: seq<Block>): Block
    requires Applicable(f)
  {
    Classify(f, AnyBypassed(blocks), Initiations(blocks)).value
  }

  function Width(c: Block, blocks: seq<Block>, bound: Bound): int {
    Widest(blocks, bound, Rank(c, bound))
  }

  predicate Widened(c: Block, blocks: seq<Block>, bound: Bound) {
    Width(c, blocks, bound) > Rank(c, bound)
  }

  function BoundBasis(c: Block, blocks: seq<Block>, bound: Bound): seq<Item> {
    if Widened(c, blocks, bound)
    then Ordered(Sorted(Collected(Setters(blocks, bound, Width(c, blocks, bound)), bound)))
    else ItemsOf(c.basis, bound)
  }

  function WithoutDeclared(items: seq<Item>): (r: seq<Item>)
    ensures forall it :: it in r <==> it in items && it.rule != DeclaredAboveCeiling
  {
    if items == [] then []
    else
      var n := |items| - 1;
      assert items == items[..n] + [items[n]];
      WithoutDeclared(items[..n]) + (if items[n].rule != DeclaredAboveCeiling then [items[n]] else [])
  }

  function Notes(c: Block, blocks: seq<Block>): seq<Item> {
    WithoutDeclared(BoundBasis(c, blocks, Floor) + BoundBasis(c, blocks, Ceiling)
                    + BoundBasis(c, blocks, OversightBound) + BoundBasis(c, blocks, InitiationBound))
  }

  function OversightAt(c: Block, blocks: seq<Block>): Oversight {
    if Widened(c, blocks, OversightBound)
    then Setters(blocks, OversightBound, Width(c, blocks, OversightBound))[0].oversight else c.oversight
  }

  function InitiationAt(c: Block, blocks: seq<Block>): Initiation {
    if Widened(c, blocks, InitiationBound)
    then Setters(blocks, InitiationBound, Width(c, blocks, InitiationBound))[0].initiation else c.initiation
  }

  function Declarations(f: Finding, blocks: seq<Block>): (r: seq<int>)
    ensures forall n :: n in r <==> Declares(f, blocks, n)
  {
    if blocks == [] then []
    else
      var n := |blocks| - 1;
      assert blocks == blocks[..n] + [blocks[n]];
      var d := blocks[n].declared;
      Declarations(f, blocks[..n]) + (if d.Some? && Some(d.value.source) == f.registryMatch then [d.value.level] else [])
  }

  // Some block declares level n for the agent the merged finding is registered to.
  ghost predicate Declares(f: Finding, blocks: seq<Block>, n: int) {
    f.registryMatch.Some? && exists b :: b in blocks && b.declared == Some(Declared(n, f.registryMatch.value))
  }

  function Lowest(levels: seq<int>): (low: int)
    requires levels != []
    ensures low in levels && forall n :: n in levels ==> low <= n
  {
    var n := |levels| - 1;
    assert levels == levels[..n] + [levels[n]];
    if n == 0 then levels[0]
    else
      var rest := Lowest(levels[..n]);
      if levels[n] < rest then levels[n] else rest
  }

  // ---------------------------------------------------------------- the merge

  predicate Registered(f: Finding, blocks: seq<Block>) {
    f.shadow == Some(false) && Declarations(f, blocks) != []
  }

  function MergedBlock(f: Finding, blocks: seq<Block>): Block
    requires Applicable(f)
  {
    var c := Classified(f, blocks);
    var floor, ceiling := Width(c, blocks, Floor), Width(c, blocks, Ceiling);
    var notes := Notes(c, blocks);
    if Registered(f, blocks) then
      var low := Lowest(Declarations(f, blocks));
      var above := if floor <= low && low > ceiling then [Item(Ceiling, DeclaredAboveCeiling, Level(low))] else [];
      var source := if f.registryMatch.Some? then f.registryMatch.value else "";
      Block(floor, Title(floor), ceiling, Title(ceiling), OversightAt(c, blocks), InitiationAt(c, blocks),
            Ordered(notes + above), Some(Declared(low, source)))
    else
      Block(floor, Title(floor), ceiling, Title(ceiling), OversightAt(c, blocks), InitiationAt(c, blocks),
            Ordered(notes), None)
  }

  predicate Understated(b: Block) {
    b.declared.Some? && b.declared.value.level < b.floor
  }

  /** merged_autonomy: the block, if the kind has one, and whether the declared level understates it. */
  function Merged(f: Finding, sources: seq<Source>): (Option<Block>, bool) {
    if !Applicable(f) then (None, false)
    else
      var b := MergedBlock(f, Valids(sources));
      (Some(b), Understated(b))
  }

  // ---------------------------------------------------------------- what a merged basis holds

  ghost predicate SetBy(blocks: seq<Block>, w: int, it: Item) {
    exists b :: b in blocks && Rank(b, it.bound) == w && it in b.basis
  }

  ghost predicate Akin(x: Item, it: Item) {
    x.bound == it.bound && x.rule == it.rule
  }

  ghost predicate Strongest(blocks: seq<Block>, w: int, it: Item) {
    SetBy(blocks, w, it) && forall x :: SetBy(blocks, w, x) && Akin(x, it) ==> SortKey(x.value) <= SortKey(it.value)
  }

  ghost predicate NoteHolds(c: Block, blocks: seq<Block>, it: Item) {
    if Widened(c, blocks, it.bound) then Strongest(blocks, Width(c, blocks, it.bound), it) else it in c.basis
  }

  lemma BoundBasisHolds(c: Block, blocks: seq<Block>, bound: Bound)
    requires AllValid(blocks) && ValidBlock(c) && SingleValued(c.basis)
    ensures forall it :: it in BoundBasis(c, blocks, bound) <==> it.bound == bound && NoteHolds(c, blocks, it)
    ensures ValidItems(BoundBasis(c, blocks, bound)) && SingleValued(BoundBasis(c, blocks, bound))
  {
    hide Ordered, Sorted, ValidBlock, ItemsOf, Collected, Setters;
    assert ValidItems(c.basis) by { ValidBasis(c); }
    if Widened(c, blocks, bound) {
      var w := Width(c, blocks, bound);
      var items := Collected(Setters(blocks, bound, w), bound);
      ItemsSetBy(blocks, bound, w);
      OrderedKeepsGreatest(items);
      OrderedIsSingleValued(Sorted(items));
      forall it: Item | it.bound == bound ensures Greatest(items, it) <==> Strongest(blocks, w, it) {
        GreatestIsStrongest(blocks, bound, w, it);
      }
    }
  }

  lemma ValidBasis(b: Block)
    requires ValidBlock(b)
    ensures ValidItems(b.basis)
  {
  }

  lemma ItemsSetBy(blocks: seq<Block>, bound: Bound, w: int)
    requires AllValid(blocks)
    ensures forall it :: it in Collected(Setters(blocks, bound, w), bound) <==> it.bound == bound && SetBy(blocks, w, it)
    ensures ValidItems(Collected(Setters(blocks, bound, w), bound))
  {
    hide Setters, Collected, ValidItem;
  }

  lemma GreatestIsStrongest(blocks: seq<Block>, bound: Bound, w: int, it: Item)
    requires AllValid(blocks) && it.bound == bound
    ensures Greatest(Collected(Setters(blocks, bound, w), bound), it) <==> Strongest(blocks, w, it)
  {
    ItemsSetBy(blocks, bound, w);
  }

  lemma SomeStrongest(blocks: seq<Block>, w: int, x: Item)
    requires AllValid(blocks) && SetBy(blocks, w, x)
    ensures exists y :: Strongest(blocks, w, y) && Akin(y, x)
  {
    var items := Collected(Setters(blocks, x.bound, w), x.bound);
    ItemsSetBy(blocks, x.bound, w);
    hide Ordered, Sorted, Collected, Setters, SetBy, AllValid, ValidItem;
    assert x in items;
    SomeGreatest(items, x);
    var y :| Greatest(items, y) && y.rule == x.rule;
    GreatestIsStrongest(blocks, x.bound, w, y);
  }

  lemma SomeGreatest(items: seq<Item>, x: Item)
    requires ValidItems(items) && x in items
    ensures exists y :: Greatest(items, y) && y.rule == x.rule
  {
    hide Ordered, Sorted, ValidItems, Greatest;
    OrderedKeepsGreatest(items);
  }

  /** The notes of a merge are the strongest notes of the blocks that set each widened bound and the classifier's own
      notes for every other bound. */
  lemma NotesAre(c: Block, blocks: seq<Block>)
    requires AllValid(blocks) && ValidBlock(c) && SingleValued(c.basis)
    ensures forall it :: it in Notes(c, blocks) <==> it.rule != DeclaredAboveCeiling && NoteHolds(c, blocks, it)
    ensures ValidItems(Notes(c, blocks)) && SingleValued(Notes(c, blocks))
  {
    forall bound: Bound ensures
      && (forall it :: it in BoundBasis(c, blocks, bound) <==> it.bound == bound && NoteHolds(c, blocks, it))
      && ValidItems(BoundBasis(c, blocks, bound)) && SingleValued(BoundBasis(c, blocks, bound))
    {
      BoundBasisHolds(c, blocks, bound);
    }
    NotesFrom(c, blocks);
    hide BoundBasis, NoteHolds, Notes, ValidItem;
  }

  lemma NotesFrom(c: Block, blocks: seq<Block>)
    requires forall bound: Bound, it :: it in BoundBasis(c, blocks, bound) ==> it.bound == bound
    ensures forall it :: it in Notes(c, blocks) <==> it.rule != DeclaredAboveCeiling && it in BoundBasis(c, blocks, it.bound)
  {
    hide BoundBasis, WithoutDeclared;
  }
}
