/** The reconciliation pass as it runs: dictionaries filled record by record, then one block written on each finding
    (reconcile_registries and prune_reconciliation_links in shadowscan/registries.py). */
module ReconciliationPass {
  import opened Ordering
  import opened RegistryEntries
  import opened RegistryRecords
  import opened Reconciliation

  class FindingObject {
    const item: Item
    var block: Option<Block>

    constructor (item: Item, block: Option<Block>)
      ensures this.item == item && this.block == block
    {
      this.item, this.block := item, block;
    }
  }

  function Items(fs: seq<FindingObject>): (r: seq<Item>)
    ensures |r| == |fs| && forall i :: 0 <= i < |fs| ==> r[i] == fs[i].item
  {
    if fs == [] then [] else Items(fs[..|fs| - 1]) + [fs[|fs| - 1].item]
  }

  ghost predicate Distinct(fs: seq<FindingObject>) {
    forall i, j :: 0 <= i < j < |fs| ==> fs[i] != fs[j]
  }

  // ---------------------------------------------------------------- observed findings by resource

  type Index = map<string, set<FindingObject>>

  function Found(index: Index, resource: string): set<FindingObject> {
    if resource in index then index[resource] else {}
  }

  function Having(fs: seq<FindingObject>, resource: string): set<FindingObject> {
    set o | o in fs && o.item.carried.Nothing? && o.item.finding.resource == resource && Usable(resource)
  }

  ghost predicate Indexes(index: Index, fs: seq<FindingObject>) {
    forall r :: Found(index, r) == Having(fs, r)
  }

  function Inserted(index: Index, o: FindingObject): Index {
    var r := o.item.finding.resource;
    if o.item.carried.Nothing? && Usable(r) then index[r := Found(index, r) + {o}] else index
  }

  method IndexByResource(fs: seq<FindingObject>) returns (index: Index)
    ensures Indexes(index, fs)
  {
    hide Indexes, Inserted;
    index := map[];
    NothingHaving();
    for n := 0 to |fs|
      invariant Indexes(index, fs[..n])
    {
      assert fs[..n + 1] == fs[..n] + [fs[n]];
      IndexOneMore(index, fs[..n], fs[n]);
      index := Inserted(index, fs[n]);
    }
    assert fs[..|fs|] == fs;
  }

  lemma IndexOneMore(index: Index, fs: seq<FindingObject>, o: FindingObject)
    requires Indexes(index, fs)
    ensures Indexes(Inserted(index, o), fs + [o])
  {
    hide Usable, Having;
    forall r ensures Found(Inserted(index, o), r) == Having(fs + [o], r) {
      HavingOneMore(fs, o, r);
      assert Found(index, r) == Having(fs, r);
    }
  }

  lemma NothingHaving()
    ensures Indexes(map[], [])
  {
  }

  lemma HavingOneMore(fs: seq<FindingObject>, o: FindingObject, q: string)
    ensures Having(fs + [o], q) == Having(fs, q)
                                   + (if o.item.carried.Nothing? && q == o.item.finding.resource && Usable(q) then {o} else {})
  {
    hide Usable;
  }

  // ---------------------------------------------------------------- the matches of one record

  ghost predicate Hit(bs: seq<Binding>, fs: seq<FindingObject>, o: FindingObject) {
    o in fs && o.item.carried.Nothing? && exists b :: b in bs && BindingMatches(b, o.item.finding)
  }

  // The findings the usable bindings match, and whether every binding was in scope and unmatched.
  method MatchBindings(usable: seq<Binding>, index: Index, ghost fs: seq<FindingObject>)
    returns (hits: set<FindingObject>, allMissed: bool)
    requires Indexes(index, fs) && forall b :: b in usable ==> UsableBinding(b)
    ensures forall o :: o in hits <==> Hit(usable, fs, o)
    ensures hits == {} ==> (allMissed <==> forall b :: b in usable ==> b.inScope)
  {
    hide Usable;
    hits := {};
    var missed := 0;
    for n := 0 to |usable|
      invariant forall o :: o in hits <==> Hit(usable[..n], fs, o)
      invariant 0 <= missed <= n
      invariant hits == {} ==> (missed == n <==> forall b :: b in usable[..n] ==> b.inScope)
    {
      var b := usable[n];
      assert usable[..n + 1] == usable[..n] + [b];
      var matches := set o | o in Found(index, b.resource) && BindingMatches(b, o.item.finding);
      assert UsableBinding(b) && Usable(b.resource);
      assert Found(index, b.resource) == Having(fs, b.resource);
      forall o ensures o in hits + matches <==> Hit(usable[..n + 1], fs, o) {
        assert o in matches <==> o in fs && o.item.carried.Nothing? && BindingMatches(b, o.item.finding);
      }
      hits := hits + matches;
      missed := missed + (if matches == {} && b.inScope then 1 else 0);
    }
    assert usable[..|usable|] == usable;
    allMissed := missed == |usable|;
  }

  lemma HitIsBound(x: Item, fs: seq<FindingObject>, o: FindingObject)
    requires x.carried.Carries? && Registers(x.carried.record)
    ensures Hit(UsableBindings(x.carried.record.bindings), fs, o) <==> o in fs && Binds(x, o.item)
  {
    hide UsableBindings, UsableBinding;
  }

  // ---------------------------------------------------------------- the dictionaries after some of the findings

  function Ids(m: map<FindingObject, set<string>>, o: FindingObject): set<string> {
    if o in m then m[o] else {}
  }

  function KeysFor(m: map<FindingObject, set<Key>>, o: FindingObject): set<Key> {
    if o in m then m[o] else {}
  }

  ghost predicate Matched(records: map<FindingObject, set<string>>, registries: map<FindingObject, set<Key>>,
                          fs: seq<FindingObject>, seen: seq<Item>) {
    && records.Keys == registries.Keys
    && (forall o :: o in fs ==> Ids(records, o) == RecordsOf(seen, o.item) && KeysFor(registries, o) == RegistriesOf(seen, o.item))
    && (forall o :: o in fs && o in records ==> records[o] != {})
  }

  ghost predicate CompleteIs(complete: map<Key, bool>, seen: seq<Item>) {
    && (forall k :: k in complete <==> k in IdentifiedKeys(seen))
    && (forall k :: k in complete ==> complete[k] == ListsAll(seen, k))
  }

  ghost predicate ScopesAre(scopes: map<Key, set<(string, string)>>, seen: seq<Item>) {
    && (forall k :: k in scopes <==> k in IdentifiedKeys(seen))
    && (forall k, p, a :: k in scopes ==> ((p, a) in scopes[k] <==> CoversScope(seen, k, p, a)))
  }

  // The (provider, account) pairs a record's usable bindings name.
  function PairsOf(r: Record): set<(string, string)> {
    set b | b in UsableBindings(r.bindings) && b.provider.Some? && b.account.Some? :: (b.provider.value, b.account.value)
  }

  // Every identified record, whatever its status, shows what its registry's listing covers.
  method NoteListing(x: Item, complete: map<Key, bool>, scopes: map<Key, set<(string, string)>>, ghost seen: seq<Item>)
    returns (completeNow: map<Key, bool>, scopesNow: map<Key, set<(string, string)>>)
    requires CompleteIs(complete, seen) && ScopesAre(scopes, seen)
    ensures CompleteIs(completeNow, seen + [x]) && ScopesAre(scopesNow, seen + [x])
  {
    hide CompleteIs, ScopesAre, PairsOf, Identified;
    CompleteOneMore(complete, seen, x);
    ScopesOneMore(scopes, seen, x);
    completeNow, scopesNow := complete, scopes;
    if Identified(x) {
      var r := x.carried.record;
      var k := KeyOf(r);
      completeNow := complete[k := (if k in complete then complete[k] else true) && r.listingComplete];
      scopesNow := scopes[k := (if k in scopes then scopes[k] else {}) + PairsOf(r)];
    }
  }

  lemma CompleteOneMore(complete: map<Key, bool>, seen: seq<Item>, x: Item)
    requires CompleteIs(complete, seen)
    ensures CompleteIs(
              if Identified(x)
              then var k := KeyOf(x.carried.record);
                   complete[k := (if k in complete then complete[k] else true) && x.carried.record.listingComplete]
              else complete, seen + [x])
  {
    hide Identified, KeyOf;
    IdentifiedOneMore(seen, x);
    forall q ensures ListsAll(seen + [x], q) <==>
                     ListsAll(seen, q) && (Identified(x) && KeyOf(x.carried.record) == q ==> x.carried.record.listingComplete) {
      ListsOneMore(seen, x, q);
    }
    if Identified(x) { NothingListed(seen, KeyOf(x.carried.record)); }
    hide ListsAll, IdentifiedKeys;
  }

  lemma ScopesOneMore(scopes: map<Key, set<(string, string)>>, seen: seq<Item>, x: Item)
    requires ScopesAre(scopes, seen)
    ensures ScopesAre(
              if Identified(x)
              then var k := KeyOf(x.carried.record);
                   scopes[k := (if k in scopes then scopes[k] else {}) + PairsOf(x.carried.record)]
              else scopes, seen + [x])
  {
    hide Identified, KeyOf, PairsOf;
    IdentifiedOneMore(seen, x);
    forall q, p, a ensures CoversScope(seen + [x], q, p, a) <==>
                           CoversScope(seen, q, p, a)
                           || (Identified(x) && KeyOf(x.carried.record) == q && (p, a) in PairsOf(x.carried.record)) {
      CoversOneMore(seen, x, q, p, a);
      if Identified(x) { PairsAre(x.carried.record, p, a); }
    }
    if Identified(x) { NothingListed(seen, KeyOf(x.carried.record)); }
    hide CoversScope, IdentifiedKeys;
  }

  lemma NothingListed(seen: seq<Item>, k: Key)
    ensures k !in IdentifiedKeys(seen) ==> ListsAll(seen, k) && forall p, a :: !CoversScope(seen, k, p, a)
  {
    hide Identified, NamesScope;
    if k !in IdentifiedKeys(seen) {
      forall x | x in seen && Identified(x) ensures KeyOf(x.carried.record) != k {
        assert KeyOf(x.carried.record) in IdentifiedKeys(seen);
      }
    }
  }

  lemma PairsAre(r: Record, p: string, a: string)
    ensures (p, a) in PairsOf(r) <==> exists b :: b in r.bindings && NamesScope(b, p, a)
  {
    hide UsableBinding, UsableBindings;
  }

  lemma IdentifiedOneMore(seen: seq<Item>, x: Item)
    ensures IdentifiedKeys(seen + [x]) == IdentifiedKeys(seen) + (if Identified(x) then {KeyOf(x.carried.record)} else {})
  {
    hide Identified;
    forall y ensures y in seen + [x] <==> y in seen || y == x { }
  }

  lemma ListsOneMore(seen: seq<Item>, x: Item, k: Key)
    ensures ListsAll(seen + [x], k) <==>
            ListsAll(seen, k) && (Identified(x) && KeyOf(x.carried.record) == k ==> x.carried.record.listingComplete)
  {
    hide Identified;
    forall y ensures y in seen + [x] <==> y in seen || y == x { }
  }

  lemma CoversOneMore(seen: seq<Item>, x: Item, k: Key, p: string, a: string)
    ensures CoversScope(seen + [x], k, p, a) <==>
            CoversScope(seen, k, p, a)
            || (Identified(x) && KeyOf(x.carried.record) == k && exists b :: b in x.carried.record.bindings && NamesScope(b, p, a))
  {
    hide Identified, NamesScope;
    forall y ensures y in seen + [x] <==> y in seen || y == x { }
  }

  lemma MatchedOneMore(records: map<FindingObject, set<string>>, registries: map<FindingObject, set<Key>>,
                       recordsNow: map<FindingObject, set<string>>, registriesNow: map<FindingObject, set<Key>>,
                       fs: seq<FindingObject>, seen: seq<Item>, x: Item)
    requires Matched(records, registries, fs, seen)
    requires recordsNow.Keys == registriesNow.Keys
    requires forall o :: o in fs && Binds(x, o.item) ==>
                           o in recordsNow && recordsNow[o] == Ids(records, o) + {x.finding.id}
                           && registriesNow[o] == KeysFor(registries, o) + {KeyOf(x.carried.record)}
    requires forall o :: o in fs && !Binds(x, o.item) ==>
                           Ids(recordsNow, o) == Ids(records, o) && KeysFor(registriesNow, o) == KeysFor(registries, o)
                           && (o in recordsNow <==> o in records)
    ensures Matched(recordsNow, registriesNow, fs, seen + [x])
  {
    hide Binds;
    forall o | o in fs
      ensures Ids(recordsNow, o) == RecordsOf(seen + [x], o.item) && KeysFor(registriesNow, o) == RegistriesOf(seen + [x], o.item)
    {
      BoundOneMore(seen, x, o.item);
    }
  }

  lemma BoundOneMore(seen: seq<Item>, x: Item, y: Item)
    ensures RecordsOf(seen + [x], y) == RecordsOf(seen, y) + (if Binds(x, y) then {x.finding.id} else {})
    ensures RegistriesOf(seen + [x], y) == RegistriesOf(seen, y) + (if Binds(x, y) then {KeyOf(x.carried.record)} else {})
  {
    forall z ensures z in seen + [x] <==> z in seen || z == x { }
    assert Binds(x, y) ==> x.carried.Carries?;
    hide Binds;
  }

  lemma MatchedUnchanged(records: map<FindingObject, set<string>>, registries: map<FindingObject, set<Key>>,
                         fs: seq<FindingObject>, seen: seq<Item>, x: Item)
    requires Matched(records, registries, fs, seen) && forall o :: o in fs ==> !Binds(x, o.item)
    ensures Matched(records, registries, fs, seen + [x])
  {
    hide Binds, RecordsOf, RegistriesOf;
    MatchedOneMore(records, registries, records, registries, fs, seen, x);
  }

  // ---------------------------------------------------------------- the pass

  method MatchRecord(x: Item, fs: seq<FindingObject>, index: Index,
                     records: map<FindingObject, set<string>>, registries: map<FindingObject, set<Key>>, ghost seen: seq<Item>)
    returns (recordsNow: map<FindingObject, set<string>>, registriesNow: map<FindingObject, set<Key>>,
             hits: set<FindingObject>, allMissed: bool)
    requires x.carried.Carries? && Registers(x.carried.record)
    requires Indexes(index, fs) && Matched(records, registries, fs, seen)
    ensures Matched(recordsNow, registriesNow, fs, seen + [x])
    ensures forall o :: o in hits <==> o in fs && Binds(x, o.item)
    ensures hits == {} ==> (allMissed <==> forall b :: b in UsableBindings(x.carried.record.bindings) ==> b.inScope)
  {
    var r := x.carried.record;
    var usable := UsableBindings(r.bindings);
    hits, allMissed := MatchBindings(usable, index, fs);
    forall o ensures o in hits <==> o in fs && Binds(x, o.item) { HitIsBound(x, fs, o); }
    hide Binds, Hit, UsableBindings, Indexes, Matched, Adding;
    recordsNow, registriesNow := Adding(records, hits, x.finding.id), Adding(registries, hits, KeyOf(r));
    AddingMatches(records, registries, hits, fs, seen, x);
  }

  // For every hit: m.setdefault(hit, set()).add(value).
  function Adding<T>(m: map<FindingObject, set<T>>, hits: set<FindingObject>, value: T): map<FindingObject, set<T>> {
    map o | o in m.Keys + hits :: (if o in m then m[o] else {}) + (if o in hits then {value} else {})
  }

  lemma AddingMatches(records: map<FindingObject, set<string>>, registries: map<FindingObject, set<Key>>,
                      hits: set<FindingObject>, fs: seq<FindingObject>, seen: seq<Item>, x: Item)
    requires x.carried.Carries? && Matched(records, registries, fs, seen)
    requires forall o :: o in hits <==> o in fs && Binds(x, o.item)
    ensures Matched(Adding(records, hits, x.finding.id), Adding(registries, hits, KeyOf(x.carried.record)), fs, seen + [x])
  {
    hide Binds, RecordsOf, RegistriesOf;
    var k := KeyOf(x.carried.record);
    var recordsNow, registriesNow := Adding(records, hits, x.finding.id), Adding(registries, hits, k);
    forall o | o in fs && Binds(x, o.item)
      ensures o in recordsNow && recordsNow[o] == Ids(records, o) + {x.finding.id}
      ensures registriesNow[o] == KeysFor(registries, o) + {k}
    {
      assert o in hits;
    }
    hide KeyOf;
    MatchedOneMore(records, registries, recordsNow, registriesNow, fs, seen, x);
  }

  method ReconcileRecord(f: FindingObject, fs: seq<FindingObject>, index: Index,
                         records: map<FindingObject, set<string>>, registries: map<FindingObject, set<Key>>, ghost seen: seq<Item>)
    returns (recordsNow: map<FindingObject, set<string>>, registriesNow: map<FindingObject, set<Key>>)
    requires f.item.carried.Carries? && Indexes(index, fs) && Matched(records, registries, fs, seen)
    modifies f
    ensures Matched(recordsNow, registriesNow, fs, seen + [f.item])
    ensures f.block == BlockOf(Items(fs), f.item)
  {
    hide Matched, Indexes, Binds, UsableBindings, ObservedBy, Items;
    var x := f.item;
    var r := x.carried.record;
    if !Registers(r) {
      f.block := Some(NotComparable("record-status"));
      forall o | o in fs ensures !Binds(x, o.item) { NotRegisteringBindsNothing(x, o.item); }
      MatchedUnchanged(records, registries, fs, seen, x);
      return records, registries;
    }
    var hits, allMissed;
    recordsNow, registriesNow, hits, allMissed := MatchRecord(x, fs, index, records, registries, seen);
    HitsAreObserved(hits, fs, x);
    var usable := UsableBindings(r.bindings);
    if hits != {} {
      f.block := Some(RegisteredAndObserved(Capped(Sorted(set o | o in hits :: o.item.finding.id))));
    } else if usable != [] && allMissed {
      f.block := Some(RegisteredNotObserved);
    } else {
      f.block := Some(NotComparable(if usable != [] then "binding-not-in-scope" else "no-usable-binding"));
    }
  }

  lemma HitsAreObserved(hits: set<FindingObject>, fs: seq<FindingObject>, x: Item)
    requires forall o :: o in hits <==> o in fs && Binds(x, o.item)
    ensures (set o | o in hits :: o.item.finding.id) == ObservedBy(Items(fs), x)
    ensures hits == {} <==> ObservedBy(Items(fs), x) == {}
  {
    hide Binds;
    var ids := set o | o in hits :: o.item.finding.id;
    forall id | id in ObservedBy(Items(fs), x) ensures id in ids {
      var y :| y in Items(fs) && Binds(x, y) && y.finding.id == id;
      var i :| 0 <= i < |fs| && Items(fs)[i] == y;
      assert fs[i] in hits;
    }
    forall o | o in hits ensures o.item.finding.id in ObservedBy(Items(fs), x) {
      var i :| 0 <= i < |fs| && fs[i] == o;
      assert Items(fs)[i] == o.item;
    }
    if hits != {} { var o :| o in hits; assert o.item.finding.id in ids; }
    if ids != {} { var id :| id in ids; }
  }

  method ReconcileObserved(f: FindingObject, fs: seq<FindingObject>, t: Tables)
    requires f in fs && f.item.carried.Nothing? && f.block == None
    requires TablesAre(t, fs, Items(fs))
    modifies f
    ensures f.block == BlockOf(Items(fs), f.item)
  {
    hide Eligible, Sorted, SortedPairs, RecordsOf, RegistriesOf, IdentifiedKeys, AbsentFrom, CompleteIs, ScopesAre, Items;
    var y := f.item;
    if f in t.records {
      f.block := Some(ObservedAndRegistered(Capped(Sorted(t.records[f])), Capped(SortedPairs(t.registries[f]))));
      return;
    }
    if !Eligible(y) {
      return;
    }
    var absent := Absent(y, t.complete, t.scopes, Items(fs));
    if absent != {} {
      f.block := Some(ObservedNotRegistered(Capped(SortedPairs(absent))));
    }
  }

  method Absent(y: Item, complete: map<Key, bool>, scopes: map<Key, set<(string, string)>>, ghost seen: seq<Item>)
    returns (absent: set<Key>)
    requires Eligible(y) && CompleteIs(complete, seen) && ScopesAre(scopes, seen)
    ensures absent == set k | k in IdentifiedKeys(seen) && AbsentFrom(seen, k, y)
  {
    hide Bindable, ListsAll, CoversScope, IdentifiedKeys;
    var scope := (y.finding.provider.value, y.finding.account.value);
    absent := set k | k in scopes && complete[k] && scope in scopes[k] && Bindable(k.0, y);
  }

  // What the blocks are after the records, and the first n findings, have been reconciled.
  ghost predicate Written(fs: seq<FindingObject>, items: seq<Item>, n: nat)
    reads fs
  {
    forall i :: 0 <= i < |fs| ==>
      fs[i].block == if i < n || fs[i].item.carried.Carries? then BlockOf(items, fs[i].item) else None
  }

  ghost predicate RecordsWritten(fs: seq<FindingObject>, items: seq<Item>, n: nat)
    reads fs
  {
    forall i :: 0 <= i < |fs| ==>
      fs[i].block == if i < n && fs[i].item.carried.Carries? then BlockOf(items, fs[i].item) else None
  }

  // The dictionaries of the pass.
  datatype Tables = Tables(records: map<FindingObject, set<string>>, registries: map<FindingObject, set<Key>>,
                           complete: map<Key, bool>, scopes: map<Key, set<(string, string)>>)

  ghost predicate TablesAre(t: Tables, fs: seq<FindingObject>, seen: seq<Item>) {
    Matched(t.records, t.registries, fs, seen) && CompleteIs(t.complete, seen) && ScopesAre(t.scopes, seen)
  }

  method Step(f: FindingObject, fs: seq<FindingObject>, index: Index, t: Tables, ghost seen: seq<Item>) returns (next: Tables)
    requires Indexes(index, fs) && f.block == None && TablesAre(t, fs, seen)
    modifies f
    ensures TablesAre(next, fs, seen + [f.item])
    ensures f.block == if f.item.carried.Carries? then BlockOf(Items(fs), f.item) else None
  {
    hide Matched, CompleteIs, ScopesAre, Indexes, BlockOf, Items;
    var complete, scopes := NoteListing(f.item, t.complete, t.scopes, seen);
    var records, registries := t.records, t.registries;
    if f.item.carried.Carries? {
      records, registries := ReconcileRecord(f, fs, index, records, registries, seen);
    } else {
      NoRecordBindsNothing(fs, f.item);
      MatchedUnchanged(records, registries, fs, seen, f.item);
    }
    next := Tables(records, registries, complete, scopes);
  }

  method ReconcileRecords(fs: seq<FindingObject>) returns (t: Tables, malformed: nat)
    requires Distinct(fs) && forall i :: 0 <= i < |fs| ==> fs[i].block == None
    modifies fs
    ensures TablesAre(t, fs, Items(fs)) && malformed == MalformedCount(Items(fs))
    ensures Written(fs, Items(fs), 0)
  {
    hide Indexes, TablesAre, BlockOf, Items, MalformedCount;
    var index := IndexByResource(fs);
    t, malformed := Tables(map[], map[], map[], map[]), 0;
    NothingYet(fs);
    ghost var items := Items(fs);
    ghost var seen: seq<Item> := [];
    for n := 0 to |fs|
      invariant seen == items[..n] && TablesAre(t, fs, seen) && malformed == MalformedCount(seen)
      invariant RecordsWritten(fs, items, n)
    {
      var f := fs[n];
      t := Step(f, fs, index, t, seen);
      malformed := malformed + (if f.item.carried.Malformed? then 1 else 0);
      CountOneMore(seen, f.item);
      assert items[..n + 1] == seen + [f.item];
      seen := seen + [f.item];
    }
    assert items[..|fs|] == items;
  }

  lemma CountOneMore(seen: seq<Item>, x: Item)
    ensures MalformedCount(seen + [x]) == MalformedCount(seen) + (if x.carried.Malformed? then 1 else 0)
  {
    assert (seen + [x])[..|seen|] == seen;
  }

  /** reconcile_registries: earlier blocks are removed first, so a second pass writes the same blocks. */
  method Reconcile(fs: seq<FindingObject>) returns (malformed: nat)
    requires Distinct(fs)
    modifies fs
    ensures forall i :: 0 <= i < |fs| ==> fs[i].block == BlockOf(Items(fs), fs[i].item)
    ensures malformed == MalformedCount(Items(fs))
  {
    hide TablesAre, BlockOf, Items;
    for n := 0 to |fs|
      invariant forall i :: 0 <= i < n ==> fs[i].block == None
    {
      fs[n].block := None;
    }
    var t;
    t, malformed := ReconcileRecords(fs);
    for n := 0 to |fs|
      invariant Written(fs, Items(fs), n)
    {
      if fs[n].item.carried.Nothing? {
        ReconcileObserved(fs[n], fs, t);
      }
      MalformedHasNoBlock(Items(fs), fs[n].item);
    }
  }

  function MalformedCount(items: seq<Item>): nat {
    if items == [] then 0
    else MalformedCount(items[..|items| - 1]) + (if items[|items| - 1].carried.Malformed? then 1 else 0)
  }

  lemma MalformedHasNoBlock(items: seq<Item>, x: Item)
    ensures x.carried.Malformed? ==> BlockOf(items, x) == None
  {
  }

  lemma NothingYet(fs: seq<FindingObject>)
    ensures TablesAre(Tables(map[], map[], map[], map[]), fs, []) && MalformedCount([]) == 0
  {
  }

  lemma NoRecordBindsNothing(fs: seq<FindingObject>, x: Item)
    requires !x.carried.Carries?
    ensures forall o :: o in fs ==> !Binds(x, o.item)
  {
  }

  // ---------------------------------------------------------------- pruning

  function KeptLinks(links: seq<string>, retained: set<string>): (r: seq<string>)
    ensures forall x :: x in r <==> x in links && x in retained
  {
    if links == [] then []
    else
      var n := |links| - 1;
      assert links == links[..n] + [links[n]];
      KeptLinks(links[..n], retained) + (if links[n] in retained then [links[n]] else [])
  }

  function PrunedBlock(b: Block, retained: set<string>): Block {
    match b
    case RegisteredAndObserved(observed) => RegisteredAndObserved(KeptLinks(observed, retained))
    case ObservedAndRegistered(records, registries) => ObservedAndRegistered(KeptLinks(records, retained), registries)
    case _ => b
  }

  /** Pruning keeps every status and leaves mutual links mutual among the findings kept. */
  lemma PruneKeepsMutualLinks(items: seq<Item>, x: Item, y: Item, retained: set<string>)
    requires UniqueIds(items) && x in items && y in items && x.carried.Carries? && y.carried.Nothing?
    requires |ObservedBy(items, x)| <= MAX_LINKS && |RecordsOf(items, y)| <= MAX_LINKS
    requires x.finding.id in retained && y.finding.id in retained && Binds(x, y)
    ensures BlockOf(items, y).Some?
    ensures var p, q := PrunedBlock(BlockOf(items, x).value, retained), PrunedBlock(BlockOf(items, y).value, retained);
            p.RegisteredAndObserved? && y.finding.id in p.observed && q.ObservedAndRegistered? && x.finding.id in q.records
  {
    LinksAreMutual(items, x, y);
    hide BlockOf, ObservedBy, RecordsOf, Binds;
  }
}
