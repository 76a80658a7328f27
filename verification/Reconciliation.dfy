/** Registry reconciliation (reconcile_registries in shadowscan/registries.py): which registry records an observed finding
    matches, and which findings a complete registry listing does not know. */
module Reconciliation {
  import opened Ordering
  import opened RegistryEntries
  import opened RegistryRecords

  // What `registry_record` metadata a finding carries.
  datatype Carried = Nothing | Malformed | Carries(record: Record)

  datatype Item = Item(finding: Finding, carried: Carried, reconciledKind: bool, resourceType: string, unresolved: bool)

  datatype Block =
    | RegisteredAndObserved(observed: seq<string>)
    | RegisteredNotObserved
    | NotComparable(reason: string)
    | ObservedAndRegistered(records: seq<string>, registries: seq<Key>)
    | ObservedNotRegistered(absentFrom: seq<Key>)

  const MAX_LINKS := 50

  const AGENTCORE := {"agentcore-runtime", "agentcore-gateway"}
  const AWS_REGISTRIES := {"aws-agent-registry", "aws-agentcore-registry"}

  function Capped<T>(s: seq<T>): seq<T> {
    if |s| <= MAX_LINKS then s else s[..MAX_LINKS]
  }

  // ---------------------------------------------------------------- who binds whom

  predicate Registers(r: Record) {
    r.status.ApprovedStatus? || r.status.Registered? || r.status.Pending?
  }

  function UsableBindings(bs: seq<Binding>): (r: seq<Binding>)
    ensures forall b :: b in r <==> b in bs && UsableBinding(b)
  {
    if bs == [] then []
    else
      var n := |bs| - 1;
      assert bs == bs[..n] + [bs[n]];
      UsableBindings(bs[..n]) + (if UsableBinding(bs[n]) then [bs[n]] else [])
  }

  // x carries a registering record with a usable binding that matches the observed finding y exactly.
  predicate Binds(x: Item, y: Item): (ok: bool)
    ensures ok ==> x.carried.Carries? && y.carried.Nothing?
  {
    && x.carried.Carries? && Registers(x.carried.record) && y.carried.Nothing?
    && exists b :: b in x.carried.record.bindings && UsableBinding(b) && BindingMatches(b, y.finding)
  }

  function ObservedBy(items: seq<Item>, x: Item): set<string> {
    set y | y in items && Binds(x, y) :: y.finding.id
  }

  function RecordsOf(items: seq<Item>, y: Item): set<string> {
    set x | x in items && Binds(x, y) :: x.finding.id
  }

  function RegistriesOf(items: seq<Item>, y: Item): set<Key> {
    set x | x in items && Binds(x, y) :: KeyOf(x.carried.record)
  }

  // ---------------------------------------------------------------- what a registry's listing covers

  predicate Identified(x: Item): (ok: bool)
    ensures ok ==> x.carried.Carries?
  {
    x.carried.Carries? && Usable(x.carried.record.registryId)
  }

  function IdentifiedKeys(items: seq<Item>): set<Key> {
    set x | x in items && Identified(x) :: KeyOf(x.carried.record)
  }

  predicate ListsAll(items: seq<Item>, k: Key) {
    forall x :: x in items && Identified(x) && KeyOf(x.carried.record) == k ==> x.carried.record.listingComplete
  }

  predicate NamesScope(b: Binding, provider: string, account: string) {
    UsableBinding(b) && b.provider == Some(provider) && b.account == Some(account)
  }

  predicate CoversScope(items: seq<Item>, k: Key, provider: string, account: string) {
    exists x :: x in items && Identified(x) && KeyOf(x.carried.record) == k
                && exists b :: b in x.carried.record.bindings && NamesScope(b, provider, account)
  }

  predicate Bindable(registry: string, y: Item) {
    registry in AWS_REGISTRIES ==> y.resourceType in AGENTCORE
  }

  predicate Eligible(y: Item): (ok: bool)
    ensures ok ==> y.carried.Nothing?
  {
    && y.carried.Nothing? && y.reconciledKind && Usable(y.finding.resource) && !y.unresolved
    && y.finding.provider.Some? && Usable(y.finding.provider.value) && y.finding.account.Some? && Usable(y.finding.account.value)
  }

  predicate AbsentFrom(items: seq<Item>, k: Key, y: Item)
    requires Eligible(y)
  {
    ListsAll(items, k) && CoversScope(items, k, y.finding.provider.value, y.finding.account.value) && Bindable(k.0, y)
  }

  // ---------------------------------------------------------------- the block of one finding

  function RecordBlock(items: seq<Item>, x: Item): Block
    requires x.carried.Carries?
  {
    var usable := UsableBindings(x.carried.record.bindings);
    if !Registers(x.carried.record) then NotComparable("record-status")
    else if ObservedBy(items, x) != {} then RegisteredAndObserved(Capped(Sorted(ObservedBy(items, x))))
    else if usable != [] && forall b :: b in usable ==> b.inScope then RegisteredNotObserved
    else NotComparable(if usable != [] then "binding-not-in-scope" else "no-usable-binding")
  }

  function ObservedBlock(items: seq<Item>, y: Item): Option<Block> {
    if RecordsOf(items, y) != {} then
      Some(ObservedAndRegistered(Capped(Sorted(RecordsOf(items, y))), Capped(SortedPairs(RegistriesOf(items, y)))))
    else if !Eligible(y) then None
    else
      var absent := set k | k in IdentifiedKeys(items) && AbsentFrom(items, k, y);
      if absent == {} then None else Some(ObservedNotRegistered(Capped(SortedPairs(absent))))
  }

  /** The reconciliation block of one finding among the findings of a scan. */
  function BlockOf(items: seq<Item>, item: Item): Option<Block> {
    match item.carried
    case Nothing => ObservedBlock(items, item)
    case Malformed => None
    case Carries(_) => Some(RecordBlock(items, item))
  }

  // ---------------------------------------------------------------- properties

  /** A record is registered and observed exactly when it binds an observed finding, and a finding exactly when a record
      binds it. */
  lemma RegisteredMeansBound(items: seq<Item>, item: Item)
    ensures item.carried.Carries? ==>
              (BlockOf(items, item).value.RegisteredAndObserved? <==> exists y :: y in items && Binds(item, y))
    ensures item.carried.Nothing? ==>
              ((BlockOf(items, item).Some? && BlockOf(items, item).value.ObservedAndRegistered?)
               <==> exists x :: x in items && Binds(x, item))
  {
    if item.carried.Carries? {
      if y :| y in items && Binds(item, y) { assert y.finding.id in ObservedBy(items, item); }
    }
    if item.carried.Nothing? {
      if x :| x in items && Binds(x, item) { assert x.finding.id in RecordsOf(items, item); }
    }
  }

  ghost predicate UniqueIds(items: seq<Item>) {
    forall x, y :: x in items && y in items && x.finding.id == y.finding.id ==> x == y
  }

  /** While neither side has more than MAX_LINKS matches, the two link lists are mutual. */
  lemma LinksAreMutual(items: seq<Item>, x: Item, y: Item)
    requires UniqueIds(items) && x in items && y in items && x.carried.Carries? && y.carried.Nothing?
    requires |ObservedBy(items, x)| <= MAX_LINKS && |RecordsOf(items, y)| <= MAX_LINKS
    ensures (BlockOf(items, x).value.RegisteredAndObserved? && y.finding.id in BlockOf(items, x).value.observed)
            <==> Binds(x, y)
    ensures (BlockOf(items, y).Some? && BlockOf(items, y).value.ObservedAndRegistered? && x.finding.id in BlockOf(items, y).value.records)
            <==> Binds(x, y)
  {
    hide Binds;
    if x.carried.Carries? && !Registers(x.carried.record) { assert !Binds(x, y) by { NotRegisteringBindsNothing(x, y); } }
    if Binds(x, y) {
      assert y.finding.id in ObservedBy(items, x) && x.finding.id in RecordsOf(items, y);
    }
    assert y.finding.id in ObservedBy(items, x) ==> Binds(x, y);
    assert x.finding.id in RecordsOf(items, y) ==> Binds(x, y);
  }

  lemma NotRegisteringBindsNothing(x: Item, y: Item)
    requires x.carried.Carries? && !Registers(x.carried.record)
    ensures !Binds(x, y)
  {
  }

  /** A finding is reported as unregistered only if no record of any registry binds it and some registry that could list it,
      whose every identified record says its listing is complete, covers its scope. */
  lemma UnregisteredNeedsCompleteListing(items: seq<Item>, y: Item)
    ensures (BlockOf(items, y).Some? && BlockOf(items, y).value.ObservedNotRegistered?) <==>
            && (forall x :: x in items ==> !Binds(x, y)) && Eligible(y)
            && exists k :: k in IdentifiedKeys(items) && AbsentFrom(items, k, y)
  {
    hide Binds, Eligible, AbsentFrom, IdentifiedKeys, Sorted, SortedPairs;
    if y.carried.Nothing? {
      assert RecordsOf(items, y) == {} <==> forall x :: x in items ==> !Binds(x, y) by {
        forall x | x in items && Binds(x, y) ensures RecordsOf(items, y) != {} { assert x.finding.id in RecordsOf(items, y); }
      }
      if Eligible(y) {
        var absent := set k | k in IdentifiedKeys(items) && AbsentFrom(items, k, y);
        if k :| k in IdentifiedKeys(items) && AbsentFrom(items, k, y) { assert k in absent; }
      }
    }
  }

  /** The blocks do not depend on the order of the findings. */
  lemma BlocksIgnoreOrder(a: seq<Item>, b: seq<Item>, item: Item)
    requires forall x :: x in a <==> x in b
    ensures BlockOf(a, item) == BlockOf(b, item)
  {
    hide Binds, Identified, Sorted, SortedPairs, NamesScope, Bindable, Usable, UsableBindings;
    assert ObservedBy(a, item) == ObservedBy(b, item) && RecordsOf(a, item) == RecordsOf(b, item);
    assert RegistriesOf(a, item) == RegistriesOf(b, item) && IdentifiedKeys(a) == IdentifiedKeys(b);
    if Eligible(item) {
      forall k ensures AbsentFrom(a, k, item) == AbsentFrom(b, k, item) { SameAbsence(a, b, k, item); }
      assert (set k | k in IdentifiedKeys(a) && AbsentFrom(a, k, item)) == (set k | k in IdentifiedKeys(b) && AbsentFrom(b, k, item));
    }
    hide AbsentFrom, ObservedBy, RecordsOf, RegistriesOf, IdentifiedKeys;
  }

  lemma SameAbsence(a: seq<Item>, b: seq<Item>, k: Key, y: Item)
    requires Eligible(y) && forall x :: x in a <==> x in b
    ensures AbsentFrom(a, k, y) == AbsentFrom(b, k, y)
  {
    hide Identified, NamesScope, Bindable;
  }
}
