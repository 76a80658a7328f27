/** Merging observations of one finding (shadowscan/merge.py): what every order and grouping of the merges agrees on. */
module Merging {
  import opened Ordering
  import opened Semilattice

  datatype Option<T> = None | Some(value: T)

  // ---------------------------------------------------------------- classification

  datatype Classification = Classification(kind: string, resourceType: string)

  function Priority(kind: string): nat {
    if kind == "agent" then 3 else if kind == "service-identity" then 2 else if kind == "oauth-grant" then 1 else 0
  }

  // Python's order on (priority, kind, resource type).
  predicate Below(a: Classification, b: Classification) {
    || Priority(a.kind) < Priority(b.kind)
    || (Priority(a.kind) == Priority(b.kind)
        && (Less(a.kind, b.kind) || (a.kind == b.kind && Less(a.resourceType, b.resourceType))))
  }

  function Top(a: Classification, b: Classification): Classification {
    if Below(a, b) then b else a
  }

  // How strongly a kind says what a finding is.
  function Standing(kind: string): nat {
    if kind == "agent" then 0 else if kind == "service-identity" then 1 else if kind == "oauth-grant" then 2 else 3
  }

  /** An agent takes precedence over a service identity, that over a grant, and a grant over every other kind; within one
      standing the later kind, and then the later resource type, in alphabetical order. */
  lemma TopMeans(a: Classification, b: Classification)
    ensures Top(a, b) == a || Top(a, b) == b
    ensures Standing(a.kind) < Standing(b.kind) ==> Top(a, b) == a && Top(b, a) == a
    ensures Standing(a.kind) == Standing(b.kind) && Less(b.kind, a.kind) ==> Top(a, b) == a && Top(b, a) == a
    ensures a.kind == b.kind && Less(b.resourceType, a.resourceType) ==> Top(a, b) == a && Top(b, a) == a
  {
    if Less(b.kind, a.kind) { LessIsStrict(b.kind, a.kind); }
    if Less(b.resourceType, a.resourceType) { LessIsStrict(b.resourceType, a.resourceType); }
    if a.kind == b.kind && Less(a.kind, a.kind) { LessIsStrict(a.kind, a.kind); }
    hide Less;
  }

  lemma BelowIsStrict(a: Classification, b: Classification)
    ensures !(Below(a, b) && Below(b, a)) && (a == b || Below(a, b) || Below(b, a))
  {
    LessIsTotal(a.kind, b.kind);
    LessIsTotal(a.resourceType, b.resourceType);
    if Less(a.kind, b.kind) { LessIsStrict(a.kind, b.kind); }
    if Less(b.kind, a.kind) { LessIsStrict(b.kind, a.kind); }
    if Less(a.resourceType, b.resourceType) { LessIsStrict(a.resourceType, b.resourceType); }
    hide Less, Priority;
  }

  lemma BelowIsTransitive(a: Classification, b: Classification, c: Classification)
    requires Below(a, b) && Below(b, c)
    ensures Below(a, c)
  {
    if Less(a.kind, b.kind) && Less(b.kind, c.kind) { LessIsTransitive(a.kind, b.kind, c.kind); }
    if Less(a.resourceType, b.resourceType) && Less(b.resourceType, c.resourceType) {
      LessIsTransitive(a.resourceType, b.resourceType, c.resourceType);
    }
    hide Less, Priority;
  }

  lemma TopIsSemilattice()
    ensures IsSemilattice(Top)
  {
    hide Below;
    forall x, y ensures Top(x, y) == Top(y, x) && Top(x, x) == x {
      BelowIsStrict(x, y);
      BelowIsStrict(x, x);
    }
    forall x, y, z ensures Top(Top(x, y), z) == Top(x, Top(y, z)) {
      BelowIsStrict(x, y);
      BelowIsStrict(y, z);
      BelowIsStrict(x, z);
      if Below(x, y) && Below(y, z) { BelowIsTransitive(x, y, z); }
      if Below(y, x) && Below(z, y) { BelowIsTransitive(z, y, x); }
      if Below(y, x) && Below(x, z) { BelowIsTransitive(y, x, z); }
      if Below(x, y) && Below(z, x) { BelowIsTransitive(z, x, y); }
    }
  }

  // ---------------------------------------------------------------- what an observation contributes

  type EvidenceKey = (string, Option<string>, string)

  datatype View = View(
    class_: Classification, kinds: set<string>, types: set<string>, evidence: set<EvidenceKey>,
    frameworks: set<string>, providers: set<string>, capabilities: set<string>, tags: set<string>,
    permissions: set<string>, models: set<string>, first: Option<int>, last: Option<int>)

  function Earlier(a: Option<int>, b: Option<int>): Option<int> {
    if a.None? then b else if b.None? then a else Some(if b.value < a.value then b.value else a.value)
  }

  function Later(a: Option<int>, b: Option<int>): Option<int> {
    if a.None? then b else if b.None? then a else Some(if b.value > a.value then b.value else a.value)
  }

  function Join(a: View, b: View): View {
    View(Top(a.class_, b.class_), a.kinds + b.kinds, a.types + b.types, a.evidence + b.evidence,
         a.frameworks + b.frameworks, a.providers + b.providers, a.capabilities + b.capabilities, a.tags + b.tags,
         a.permissions + b.permissions, a.models + b.models, Earlier(a.first, b.first), Later(a.last, b.last))
  }

  /** Of the times that are there, the earlier is the first and the later is the last. */
  lemma TimesMean(a: Option<int>, b: Option<int>, t: int)
    ensures Earlier(a, b) == Some(t) <==>
            (a == Some(t) || b == Some(t)) && (a.Some? ==> t <= a.value) && (b.Some? ==> t <= b.value)
    ensures Later(a, b) == Some(t) <==>
            (a == Some(t) || b == Some(t)) && (a.Some? ==> t >= a.value) && (b.Some? ==> t >= b.value)
  {
  }

  /** Joining observations is associative, commutative and idempotent. */
  lemma JoinIsSemilattice()
    ensures IsSemilattice(Join)
  {
    TopIsSemilattice();
    hide Top;
    forall x, y ensures Join(x, y) == Join(y, x) { }
    forall x ensures Join(x, x) == x { }
    forall x, y, z ensures Join(Join(x, y), z) == Join(x, Join(y, z)) { }
  }

  // ---------------------------------------------------------------- findings

  datatype Evidence = Evidence(signal: string, location: Option<string>, description: string, weight: real)

  function KeyOf(e: Evidence): EvidenceKey {
    (e.signal, e.location, e.description)
  }

  function Keys(es: seq<Evidence>): set<EvidenceKey> {
    set e | e in es :: KeyOf(e)
  }

  function Elements(s: seq<string>): set<string> {
    set x | x in s
  }

  // The nonempty names of a list; the list helpers skip empty ones.
  function Names(s: seq<string>): set<string> {
    set x | x in s && x != ""
  }

  // No element of the list, and no earlier element of the one added to it, has the same key.
  ghost predicate IsNew<T, K>(own: seq<T>, more: seq<T>, k: nat, key: T -> K)
    requires k < |more|
  {
    (forall i :: 0 <= i < |own| ==> key(own[i]) != key(more[k])) && forall i :: 0 <= i < k ==> key(more[i]) != key(more[k])
  }

  ghost predicate TakenAt<T, K>(own: seq<T>, more: seq<T>, all: seq<T>, key: T -> K, at: seq<nat>) {
    && own <= all && |at| == |all| - |own|
    && (forall i :: 0 <= i < |at| ==> at[i] < |more| && all[|own| + i] == more[at[i]] && IsNew(own, more, at[i], key))
    && forall i, j :: 0 <= i < j < |at| ==> at[i] < at[j]
  }

  // A list that keeps what it had and takes new elements from another list, in their order there.
  ghost predicate Extends<T, K>(own: seq<T>, more: seq<T>, all: seq<T>, key: T -> K) {
    exists at :: TakenAt(own, more, all, key, at)
  }

  lemma TakenNext<T, K>(own: seq<T>, more: seq<T>, all: seq<T>, key: T -> K, at: seq<nat>, n: nat)
    requires TakenAt(own, more, all, key, at) && n < |more| && IsNew(own, more, n, key)
    requires forall i :: 0 <= i < |at| ==> at[i] < n
    ensures TakenAt(own, more, all + [more[n]], key, at + [n])
  {
    hide IsNew;
  }

  function Itself(s: string): string { s }

  // A list kept in metadata, if there is one.
  function Listed(s: Option<seq<string>>): set<string> {
    if s.Some? then Elements(s.value) else {}
  }

  class Finding {
    const id: string
    var kind: string
    var resourceType: string
    var observedKinds: Option<seq<string>>
    var observedTypes: Option<seq<string>>
    var evidence: seq<Evidence>
    var frameworks: seq<string>
    var providers: seq<string>
    var capabilities: seq<string>
    var tags: seq<string>
    var permissions: seq<string>
    var models: seq<string>
    var owner: Option<string>
    var firstSeen: Option<int>
    var lastSeen: Option<int>

    constructor (id: string, kind: string, resourceType: string, evidence: seq<Evidence>)
      ensures this.id == id && ViewOf() == View(Classification(kind, resourceType), {kind}, {resourceType}, Keys(evidence),
                                                {}, {}, {}, {}, {}, {}, None, None)
    {
      this.id, this.kind, this.resourceType, this.evidence := id, kind, resourceType, evidence;
      observedKinds, observedTypes := None, None;
      frameworks, providers, capabilities, tags, permissions, models := [], [], [], [], [], [];
      owner, firstSeen, lastSeen := None, None, None;
    }

    // The observed kinds and types include the current ones, listed or not.
    function ViewOf(): View
      reads this
    {
      View(Classification(kind, resourceType), Listed(observedKinds) + {kind}, Listed(observedTypes) + {resourceType},
           Keys(evidence), Names(frameworks), Names(providers), Names(capabilities), Names(tags),
           Elements(permissions), Elements(models), firstSeen, lastSeen)
    }

    // _merge_classification
    method MergeClassification(f: Finding)
      requires f != this
      modifies this`kind, this`resourceType, this`observedKinds, this`observedTypes
      ensures Classification(kind, resourceType) == Top(old(Classification(kind, resourceType)), Classification(f.kind, f.resourceType))
      ensures Listed(observedKinds) + {kind} ==
              old(Listed(observedKinds) + {kind}) + Listed(f.observedKinds) + {f.kind}
      ensures Listed(observedTypes) + {resourceType} ==
              old(Listed(observedTypes) + {resourceType}) + Listed(f.observedTypes) + {f.resourceType}
    {
      hide Listed, Below;
      var top := Top(Classification(kind, resourceType), Classification(f.kind, f.resourceType));
      observedKinds := Observed(observedKinds, kind, f.observedKinds, f.kind, top.kind);
      observedTypes := Observed(observedTypes, resourceType, f.observedTypes, f.resourceType, top.resourceType);
      kind, resourceType := top.kind, top.resourceType;
    }

    // _merge_observations: unions of lists, keeping what is already there and its order.
    method MergeObservations(f: Finding)
      requires f != this
      modifies this`evidence, this`frameworks, this`providers, this`capabilities, this`tags, this`permissions, this`models, this`owner
      ensures Keys(evidence) == old(Keys(evidence)) + Keys(f.evidence) && Extends(old(evidence), f.evidence, evidence, KeyOf)
      ensures Names(frameworks) == old(Names(frameworks)) + Names(f.frameworks) && Extends(old(frameworks), f.frameworks, frameworks, Itself)
      ensures Names(providers) == old(Names(providers)) + Names(f.providers) && Extends(old(providers), f.providers, providers, Itself)
      ensures Names(capabilities) == old(Names(capabilities)) + Names(f.capabilities) && Extends(old(capabilities), f.capabilities, capabilities, Itself)
      ensures Names(tags) == old(Names(tags)) + Names(f.tags) && Extends(old(tags), f.tags, tags, Itself)
      ensures Elements(permissions) == old(Elements(permissions)) + Elements(f.permissions) && Extends(old(permissions), f.permissions, permissions, Itself)
      ensures Elements(models) == old(Elements(models)) + Elements(f.models) && Extends(old(models), f.models, models, Itself)
      ensures owner == if old(owner).Some? && old(owner).value != "" then old(owner) else f.owner
    {
      hide Extends, Keys, Names, Elements;
      evidence := AddEvidence(evidence, f.evidence);
      frameworks := AddNames(frameworks, f.frameworks);
      providers := AddNames(providers, f.providers);
      capabilities := AddNames(capabilities, f.capabilities);
      tags := AddNames(tags, f.tags);
      permissions := AddValues(permissions, f.permissions);
      models := AddValues(models, f.models);
      if owner.None? || owner.value == "" {
        owner := f.owner;
      }
    }

    /** One merge step joins the two views, and keeps the first owner and the evidence already there. */
    method Absorb(f: Finding)
      requires f != this
      modifies this
      ensures ViewOf() == Join(old(ViewOf()), f.ViewOf())
      ensures owner == (if old(owner).Some? && old(owner).value != "" then old(owner) else f.owner)
      ensures Extends(old(evidence), f.evidence, evidence, KeyOf)
      ensures Extends(old(frameworks), f.frameworks, frameworks, Itself) && Extends(old(providers), f.providers, providers, Itself)
      ensures Extends(old(capabilities), f.capabilities, capabilities, Itself) && Extends(old(tags), f.tags, tags, Itself)
      ensures Extends(old(permissions), f.permissions, permissions, Itself) && Extends(old(models), f.models, models, Itself)
    {
      hide Extends;
      MergeClassification(f);
      MergeObservations(f);
      firstSeen := Earlier(firstSeen, f.firstSeen);
      lastSeen := Later(lastSeen, f.lastSeen);
      hide Keys, Names, Elements, Listed, Top;
      SetsJoin(Listed(old(observedKinds)), old(kind), Listed(f.observedKinds), f.kind);
      SetsJoin(Listed(old(observedTypes)), old(resourceType), Listed(f.observedTypes), f.resourceType);
    }
  }

  // All values observed so far are listed once there is more than one; `chosen` becomes the current one.
  method Observed(own: Option<seq<string>>, current: string, other: Option<seq<string>>, otherCurrent: string, chosen: string)
    returns (list: Option<seq<string>>)
    requires chosen == current || chosen == otherCurrent
    ensures Listed(list) + {chosen} == (Listed(own) + {current}) + Listed(other) + {otherCurrent}
  {
    hide Listed;
    var all := {current, otherCurrent} + Listed(own) + Listed(other);
    assert all == (Listed(own) + {current}) + Listed(other) + {otherCurrent};
    if |all| > 1 {
      list := Some(Sorted(all));
      ListedSorted(all);
      assert all + {chosen} == all;
    } else {
      list := own;
      OnlyOne(Listed(own), current, Listed(other), otherCurrent, chosen);
    }
  }

  lemma ListedSorted(s: set<string>)
    ensures Listed(Some(Sorted(s))) == s
  {
  }

  lemma OnlyOne(a: set<string>, x: string, b: set<string>, y: string, z: string)
    requires |{x, y} + a + b| <= 1 && (z == x || z == y)
    ensures a + {z} == {x, y} + a + b
  {
    var all := {x, y} + a + b;
    Singleton(all, x);
    assert y in all;
  }

  lemma SetsJoin(a: set<string>, x: string, b: set<string>, y: string)
    ensures (a + {x}) + b + {y} == (a + {x}) + (b + {y})
  {
  }

  lemma Singleton(s: set<string>, x: string)
    requires |s| <= 1 && x in s
    ensures s == {x}
  {
    var rest := s - {x};
    if rest != {} {
      var y :| y in rest;
      assert {x, y} <= s;
      SubsetSize({x, y}, s);
    }
  }

  method AddEvidence(own: seq<Evidence>, more: seq<Evidence>) returns (all: seq<Evidence>)
    ensures Keys(all) == Keys(own) + Keys(more) && Extends(own, more, all, KeyOf)
  {
    var seen := Keys(own);
    all := own;
    ghost var at: seq<nat> := [];
    for n := 0 to |more|
      invariant seen == Keys(all) == Keys(own) + Keys(more[..n])
      invariant TakenAt(own, more, all, KeyOf, at) && forall i :: 0 <= i < |at| ==> at[i] < n
    {
      var e := more[n];
      assert more[..n + 1] == more[..n] + [e];
      KeysAppend(more[..n], e);
      KeysAppend(all, e);
      if KeyOf(e) !in seen {
        KeyIsNew(own, more, n);
        TakenNext(own, more, all, KeyOf, at, n);
        seen := seen + {KeyOf(e)};
        all, at := all + [e], at + [n];
      }
      hide Keys, TakenAt;
    }
    assert more[..|more|] == more;
  }

  lemma KeyIsNew(own: seq<Evidence>, more: seq<Evidence>, n: nat)
    requires n < |more| && KeyOf(more[n]) !in Keys(own) + Keys(more[..n])
    ensures IsNew(own, more, n, KeyOf)
  {
    forall i | 0 <= i < n ensures KeyOf(more[i]) != KeyOf(more[n]) { assert more[..n][i] in more[..n]; }
  }

  lemma ValueIsNew(own: seq<string>, more: seq<string>, n: nat)
    requires n < |more| && more[n] !in own && more[n] !in more[..n]
    ensures IsNew(own, more, n, Itself)
  {
    forall i | 0 <= i < n ensures more[i] != more[n] { assert more[..n][i] in more[..n]; }
  }

  lemma KeysAppend(es: seq<Evidence>, e: Evidence)
    ensures Keys(es + [e]) == Keys(es) + {KeyOf(e)}
  {
    assert forall x :: x in es + [e] <==> x in es || x == e;
    hide KeyOf;
  }

  lemma NamesAppend(s: seq<string>, x: string)
    ensures Names(s + [x]) == Names(s) + (if x == "" then {} else {x})
  {
    assert forall y :: y in s + [x] <==> y in s || y == x;
  }

  lemma ElementsAppend(s: seq<string>, x: string)
    ensures Elements(s + [x]) == Elements(s) + {x}
  {
    assert forall y :: y in s + [x] <==> y in s || y == x;
  }

  // add_framework, add_capability and the like: an empty name is skipped.
  method AddNames(own: seq<string>, more: seq<string>) returns (all: seq<string>)
    ensures Names(all) == Names(own) + Names(more) && Extends(own, more, all, Itself) && "" !in all[|own|..]
  {
    all := own;
    ghost var at: seq<nat> := [];
    for n := 0 to |more|
      invariant Names(all) == Names(own) + Names(more[..n]) && own <= all && "" !in all[|own|..]
      invariant TakenAt(own, more, all, Itself, at) && forall i :: 0 <= i < |at| ==> at[i] < n
    {
      assert more[..n + 1] == more[..n] + [more[n]];
      NamesAppend(more[..n], more[n]);
      NamesAppend(all, more[n]);
      if more[n] != "" && more[n] !in all {
        assert more[n] !in Names(all);
        ValueIsNew(own, more, n);
        TakenNext(own, more, all, Itself, at, n);
        all, at := all + [more[n]], at + [n];
      }
      hide TakenAt;
    }
    assert more[..|more|] == more;
  }

  method AddValues(own: seq<string>, more: seq<string>) returns (all: seq<string>)
    ensures Elements(all) == Elements(own) + Elements(more) && Extends(own, more, all, Itself)
  {
    all := own;
    ghost var at: seq<nat> := [];
    for n := 0 to |more|
      invariant Elements(all) == Elements(own) + Elements(more[..n]) && own <= all
      invariant TakenAt(own, more, all, Itself, at) && forall i :: 0 <= i < |at| ==> at[i] < n
    {
      assert more[..n + 1] == more[..n] + [more[n]];
      ElementsAppend(more[..n], more[n]);
      ElementsAppend(all, more[n]);
      if more[n] !in all {
        assert more[n] !in Elements(all);
        ValueIsNew(own, more, n);
        TakenNext(own, more, all, Itself, at, n);
        all, at := all + [more[n]], at + [n];
      }
      hide TakenAt;
    }
    assert more[..|more|] == more;
  }
}
