/** What the registry rules ask of a record, a binding and a finding, read off their fields. */
module RegistryMeaning {
  import opened Glob
  import opened Ordering
  import opened Text
  import opened RegistryEntries
  import opened RegistryRecords
  import opened TrustedApprovals
  import R = Reconciliation

  // ---------------------------------------------------------------- exact identities

  predicate MaskAt(s: string, i: nat) {
    i + 10 <= |s| && s[i..i + 10] == "[REDACTED]"
  }

  ghost predicate Redacted(s: string) {
    exists i: nat :: MaskAt(s, i)
  }

  ghost predicate Padded(s: string) {
    s != "" && (Space(s[0]) || Space(s[|s| - 1]))
  }

  lemma {:induction false} ContainsMeans(s: string)
    ensures Contains(s, REDACTED) <==> Redacted(s)
  {
    assert |REDACTED| == 10 && (REDACTED <= s <==> MaskAt(s, 0));
    if s != "" {
      ContainsMeans(s[1..]);
      hide Contains, REDACTED;
      forall i: nat ensures MaskAt(s[1..], i) <==> MaskAt(s, i + 1) {
        if i + 11 <= |s| { assert s[1..][i..i + 10] == s[i + 1..i + 11]; }
      }
      hide MaskAt;
      if Redacted(s) {
        var i: nat :| MaskAt(s, i);
        if i > 0 { assert MaskAt(s[1..], i - 1); }
      }
    }
  }

  lemma {:induction false} StripLeftShrinks(s: string)
    ensures |StripLeft(s)| <= |s| && (|StripLeft(s)| == |s| <==> s == "" || !Space(s[0]))
    ensures s == "" || !Space(s[0]) ==> StripLeft(s) == s
  {
    if s != "" && Space(s[0]) { StripLeftShrinks(s[1..]); }
  }

  lemma {:induction false} StripRightShrinks(s: string)
    ensures |StripRight(s)| <= |s| && (|StripRight(s)| == |s| <==> s == "" || !Space(s[|s| - 1]))
    ensures s == "" || !Space(s[|s| - 1]) ==> StripRight(s) == s
    decreases |s|
  {
    if s != "" && Space(s[|s| - 1]) { StripRightShrinks(s[..|s| - 1]); }
  }

  lemma StripMeans(s: string)
    ensures Strip(s) == s <==> !Padded(s)
  {
    StripLeftShrinks(s);
    StripRightShrinks(StripLeft(s));
    hide StripLeft, StripRight, Space;
  }

  /** An exact identity is not empty, not padded and not redacted anywhere. */
  lemma UsableMeans(s: string)
    ensures Usable(s) <==> s != "" && !Padded(s) && !Redacted(s)
  {
    ContainsMeans(s);
    StripMeans(s);
    hide Strip, Contains, Padded, Redacted;
  }

  ghost predicate ExactIdentity(s: string) {
    s != "" && !Padded(s) && !Redacted(s)
  }

  /** A binding is usable when its resource, and whatever else it sets, is an exact identity; an empty text is set. */
  lemma UsableBindingMeans(b: Binding)
    ensures UsableBinding(b) <==>
            && ExactIdentity(b.resource) && (b.provider == None || ExactIdentity(b.provider.value))
            && (b.account == None || ExactIdentity(b.account.value)) && (b.region == None || ExactIdentity(b.region.value))
  {
    hide Usable, Padded, Redacted;
    UsableMeans(b.resource);
    if b.provider.Some? { UsableMeans(b.provider.value); }
    if b.account.Some? { UsableMeans(b.account.value); }
    if b.region.Some? { UsableMeans(b.region.value); }
  }

  // ---------------------------------------------------------------- matching an inventory entry

  ghost predicate Allows(list: seq<string>, value: Option<string>) {
    list == [] || exists i :: 0 <= i < |list| && value == Some(list[i])
  }

  // The account of an Atlassian finding is compared by its site's origin, any other as it is spelled.
  ghost predicate AllowsAccount(rules: Rules, list: seq<string>, f: Finding) {
    if f.provider != Some("atlassian") then Allows(list, f.account)
    else list == []
         || (f.account.Some? && rules.origin(f.account.value).Some?
             && exists i :: 0 <= i < |list| && rules.origin(list[i]) == rules.origin(f.account.value))
  }

  /** An entry approves a finding when one of its patterns matches the resource and every scope list it has allows the
      finding's value; for a workspace or an Atlassian site the entry must name accounts. */
  lemma ApprovesMeans(rules: Rules, e: Entry, f: Finding)
    ensures Approves(rules, e, f) <==>
            && (exists i :: 0 <= i < |e.resources| && Matches(f.resource, e.resources[i]))
            && Allows(e.surfaces, Some(f.surface)) && Allows(e.providers, f.provider) && AllowsAccount(rules, e.accounts, f)
            && Allows(e.regions, f.region) && Allows(e.discriminators, Some(f.discriminator))
            && (f.provider == Some("google-workspace") || f.provider == Some("atlassian") ==> e.accounts != [])
  {
    assert "google-workspace" in NEED_ACCOUNT && "atlassian" in NEED_ACCOUNT;
    ListAllows(e.surfaces, Some(f.surface));
    ListAllows(e.providers, f.provider);
    ListAllows(e.accounts, f.account);
    ListAllows(e.regions, f.region);
    ListAllows(e.discriminators, Some(f.discriminator));
    AccountAllowed(rules, e, f);
    hide Matches, Allows, AllowsAccount, AccountMatches;
    assert (exists p :: p in e.resources && Matches(f.resource, p)) <==>
           (exists i :: 0 <= i < |e.resources| && Matches(f.resource, e.resources[i])) by {
      if p :| p in e.resources && Matches(f.resource, p) { var i :| 0 <= i < |e.resources| && e.resources[i] == p; }
    }
  }

  lemma ListAllows(list: seq<string>, value: Option<string>)
    ensures Allows(list, value) <==> list == [] || (value.Some? && value.value in list)
  {
  }

  lemma AccountAllowed(rules: Rules, e: Entry, f: Finding)
    ensures AccountMatches(rules, e, f) <==> AllowsAccount(rules, e.accounts, f)
  {
    if f.account.Some? {
      if a :| a in e.accounts && rules.origin(a) == rules.origin(f.account.value) { var i :| 0 <= i < |e.accounts| && e.accounts[i] == a; }
    }
  }

  // ---------------------------------------------------------------- trusted registries

  // The entry of the trusted list that speaks for a registry: the last with its type and exact id.
  ghost predicate SpeaksFor(trusted: seq<Policy>, i: nat, registry: string, id: string) {
    && i < |trusted| && trusted[i].registry == registry && trusted[i].id == id && registry != "entra-agent-registry"
    && forall j :: i < j < |trusted| ==> !(trusted[j].registry == registry && trusted[j].id == id)
  }

  lemma {:induction false} PolicyIs(trusted: seq<Policy>, k: Key)
    ensures PolicyOf(trusted, k).Some? <==> exists i: nat :: SpeaksFor(trusted, i, k.0, k.1)
    ensures forall i: nat :: SpeaksFor(trusted, i, k.0, k.1) ==> PolicyOf(trusted, k) == Some(trusted[i])
    decreases |trusted|
  {
    if trusted != [] {
      var n := |trusted| - 1;
      var rest, p := trusted[..n], trusted[n];
      assert p.registry in UNTRUSTABLE <==> p.registry == "entra-agent-registry";
      if p.registry !in UNTRUSTABLE && (p.registry, p.id) == k {
        assert SpeaksFor(trusted, n, k.0, k.1);
      } else {
        PolicyIs(rest, k);
        forall i: nat ensures SpeaksFor(trusted, i, k.0, k.1) <==> SpeaksFor(rest, i, k.0, k.1) {
          if SpeaksFor(rest, i, k.0, k.1) { assert forall j :: i < j < |rest| ==> trusted[j] == rest[j]; }
          if SpeaksFor(trusted, i, k.0, k.1) { assert i != n; }
        }
      }
    }
  }

  // What the entry for the registry accepts: a manual approval, or with the operator's leave another approval, a bare
  // registration, or a record replayed from an export.
  ghost predicate Accepts(p: Policy, r: Record, replayed: bool) {
    && (|| (r.status.ApprovedStatus? && (r.mode.Manual? || p.allowAuto))
        || (r.status.Registered? && p.allowRegistered))
    && (replayed ==> p.allowOffline)
  }

  /** A record approves exactly when the operator's entry for its registry accepts it and its own id is an exact identity. A
      registry that is not trusted by type and id approves nothing. */
  lemma AcceptedMeans(o: Observed, trusted: seq<Policy>, offline: set<string>)
    ensures Accepted(o, trusted, offline) <==>
            && o.record.Some? && Usable(o.record.value.recordId)
            && exists i: nat :: SpeaksFor(trusted, i, o.record.value.registry, o.record.value.registryId)
                                && Accepts(trusted[i], o.record.value, o.finding.id in offline)
  {
    if o.record.Some? {
      PolicyIs(trusted, KeyOf(o.record.value));
      hide PolicyOf, SpeaksFor, Usable;
    }
  }

  /** Why a record of a trusted registry confers nothing, when its status or the way it was read is the reason. */
  lemma RefusedMeans(r: Record, p: Policy, replayed: bool)
    ensures Refused(r, p, replayed) ==
            if r.status.ApprovedStatus? && r.mode.Auto? && !p.allowAuto then Some(AutoApproved)
            else if r.status.ApprovedStatus? && !r.mode.Manual? && !r.mode.Auto? && !p.allowAuto then Some(NoReviewer)
            else if r.status.Registered? && !p.allowRegistered then Some(RegisteredOnly)
            else if (r.status.ApprovedStatus? || r.status.Registered?) && Usable(r.recordId) && replayed && !p.allowOffline
            then Some(OfflineReplayed)
            else None
    ensures Accepts(p, r, replayed) && Usable(r.recordId) <==>
            Refused(r, p, replayed).None? && (r.status.ApprovedStatus? || r.status.Registered?) && Usable(r.recordId)
  {
    hide Usable;
  }

  /** The entry a record confers for a resource carries the record's identity and publisher, matches that resource without
      its padding and nothing else, and asks for the provider, account and region that are given. */
  lemma ConferredEntryMeans(r: Record, resource: string, provider: Option<string>, account: Option<string>, region: Option<string>,
                            s: string)
    ensures var e := EntryFor(r, resource, provider, account, region);
            && e.agentId == r.registry + ":" + r.recordId && e.source == Some("trusted-registry:" + r.registryId)
            && e.owner == r.publisher && e.surfaces == [] && e.discriminators == []
            && |e.resources| == 1 && (Matches(s, e.resources[0]) <==> s == Strip(resource))
            && (Allows(e.providers, Some(s)) <==> provider.None? || Blank(provider.value) || s == Strip(provider.value))
            && (Allows(e.accounts, Some(s)) <==> account.None? || Blank(account.value) || s == Strip(account.value))
            && (Allows(e.regions, Some(s)) <==> region.None? || Blank(region.value) || s == Strip(region.value))
  {
    StripOfPattern(resource, s);
    hide LiteralPattern, Matches, Strip;
    ListAllows(Constraint(provider), Some(s));
    ListAllows(Constraint(account), Some(s));
    ListAllows(Constraint(region), Some(s));
    hide Allows, Blank;
  }

  // ---------------------------------------------------------------- reconciliation

  // A binding names the finding: an exact identity throughout, the same resource, and whatever scope it sets.
  ghost predicate Names(b: Binding, f: Finding) {
    && UsableBinding(b) && b.resource == f.resource
    && (b.provider.Some? ==> f.provider == b.provider) && (b.account.Some? ==> f.account == b.account)
    && (b.region.Some? ==> f.region == b.region)
  }

  /** A record binds a finding that carries no record itself when its status registers and one of its bindings names it. */
  lemma BindsMeans(x: R.Item, y: R.Item)
    ensures R.Binds(x, y) <==>
            && x.carried.Carries? && y.carried.Nothing?
            && (x.carried.record.status.ApprovedStatus? || x.carried.record.status.Registered? || x.carried.record.status.Pending?)
            && exists i :: 0 <= i < |x.carried.record.bindings| && Names(x.carried.record.bindings[i], y.finding)
  {
    hide Usable;
    if x.carried.Carries? {
      var bs := x.carried.record.bindings;
      if b :| b in bs && UsableBinding(b) && BindingMatches(b, y.finding) { var i :| 0 <= i < |bs| && bs[i] == b; }
    }
  }

  ghost predicate BindsSome(items: seq<R.Item>, x: R.Item) {
    exists y :: y in items && R.Binds(x, y)
  }

  ghost predicate Registering(x: R.Item)
    requires x.carried.Carries?
  {
    x.carried.record.status.ApprovedStatus? || x.carried.record.status.Registered? || x.carried.record.status.Pending?
  }

  lemma ObservedMeans(items: seq<R.Item>, x: R.Item)
    ensures R.ObservedBy(items, x) != {} <==> BindsSome(items, x)
    ensures forall id :: id in R.ObservedBy(items, x) <==> exists y :: y in items && R.Binds(x, y) && y.finding.id == id
  {
    hide R.Binds;
    if y :| y in items && R.Binds(x, y) { assert y.finding.id in R.ObservedBy(items, x); }
    if R.ObservedBy(items, x) != {} { var id :| id in R.ObservedBy(items, x); }
  }

  lemma FirstFifty(s: seq<string>)
    ensures |R.Capped(s)| <= 50 && R.Capped(s) <= s && (|s| <= 50 ==> R.Capped(s) == s)
    ensures forall x :: x in R.Capped(s) ==> x in s
  {
  }

  /** A record is registered-and-observed when it registers and binds an observed finding; the findings it lists are ones it
      binds. */
  lemma ObservedRecordMeans(items: seq<R.Item>, x: R.Item)
    requires x.carried.Carries?
    ensures var b := R.RecordBlock(items, x);
            && (b.RegisteredAndObserved? <==> Registering(x) && BindsSome(items, x))
            && (b.RegisteredAndObserved? ==>
                  |b.observed| <= 50 && forall id :: id in b.observed ==> exists y :: y in items && R.Binds(x, y) && y.finding.id == id)
  {
    ObservedMeans(items, x);
    FirstFifty(Sorted(R.ObservedBy(items, x)));
    hide R.Binds, R.UsableBindings, R.ObservedBy, UsableBinding, Sorted, BindsSome, R.Capped;
  }

  /** A registering record that binds no observed finding is registered-not-observed when it has usable bindings and all were
      in scope; otherwise it is not comparable, with the reason. */
  lemma UnobservedRecordMeans(items: seq<R.Item>, x: R.Item)
    requires x.carried.Carries? && !BindsSome(items, x)
    ensures var bs, b := x.carried.record.bindings, R.RecordBlock(items, x);
            b == if !Registering(x) then R.NotComparable("record-status")
                 else if forall c :: c in bs ==> !UsableBinding(c) then R.NotComparable("no-usable-binding")
                 else if exists c :: c in bs && UsableBinding(c) && !c.inScope then R.NotComparable("binding-not-in-scope")
                 else R.RegisteredNotObserved
  {
    ObservedMeans(items, x);
    var usable := R.UsableBindings(x.carried.record.bindings);
    if usable != [] { assert usable[0] in usable; }
    hide R.UsableBindings, R.ObservedBy, UsableBinding, Sorted, BindsSome;
  }

  lemma SilentRecordMeans(items: seq<R.Item>, x: R.Item)
    requires x.carried.Carries? && !Registering(x)
    ensures R.RecordBlock(items, x) == R.NotComparable("record-status")
  {
  }

  ghost predicate Shown(s: Option<string>) {
    s.Some? && Usable(s.value)
  }

  // The finding is one that registries list, and its identity and scope are exact.
  ghost predicate Listable(y: R.Item) {
    && y.carried.Nothing? && y.reconciledKind && !y.unresolved
    && Usable(y.finding.resource) && Shown(y.finding.provider) && Shown(y.finding.account)
  }

  // A record of the registry says something about the finding's provider and account.
  ghost predicate Reaches(items: seq<R.Item>, registry: string, id: string, f: Finding) {
    exists x, b :: x in items && OfRegistry(x, registry, id) && b in x.carried.record.bindings && UsableBinding(b)
                   && b.provider.Some? && b.provider == f.provider && b.account.Some? && b.account == f.account
  }

  ghost predicate OfRegistry(x: R.Item, registry: string, id: string) {
    x.carried.Carries? && x.carried.record.registry == registry && x.carried.record.registryId == id && Usable(id)
  }

  // Records of AWS registries bind agent runtimes and gateways only.
  ghost predicate CouldBind(registry: string, resourceType: string) {
    registry == "aws-agent-registry" || registry == "aws-agentcore-registry" ==>
      resourceType == "agentcore-runtime" || resourceType == "agentcore-gateway"
  }

  /** A finding is absent from a registry when every identified record of it says the listing is complete, one of them
      reaches the finding's provider and account, and its records could bind the finding at all. */
  lemma AbsenceMeans(items: seq<R.Item>, registry: string, id: string, y: R.Item)
    requires R.Eligible(y)
    ensures Listable(y)
    ensures R.AbsentFrom(items, (registry, id), y) <==>
            && (forall x :: x in items && OfRegistry(x, registry, id) ==> x.carried.record.listingComplete)
            && Reaches(items, registry, id, y.finding) && CouldBind(registry, y.resourceType)
  {
    var k := (registry, id);
    forall x ensures R.Identified(x) && KeyOf(x.carried.record) == k <==> OfRegistry(x, registry, id) { }
    assert R.Bindable(registry, y) <==> CouldBind(registry, y.resourceType);
    hide Usable, R.Identified, OfRegistry, R.Bindable, CouldBind, R.Eligible;
    var p, a := y.finding.provider.value, y.finding.account.value;
    if R.CoversScope(items, k, p, a) {
      var x :| x in items && R.Identified(x) && KeyOf(x.carried.record) == k && exists b :: b in x.carried.record.bindings && R.NamesScope(b, p, a);
      var b :| b in x.carried.record.bindings && R.NamesScope(b, p, a);
      assert OfRegistry(x, registry, id);
    }
    if Reaches(items, registry, id, y.finding) {
      var x, b :| x in items && OfRegistry(x, registry, id) && b in x.carried.record.bindings && UsableBinding(b)
                  && b.provider.Some? && b.provider == y.finding.provider && b.account.Some? && b.account == y.finding.account;
      assert R.NamesScope(b, p, a) && R.Identified(x);
    }
  }

  lemma ListableIsEligible(y: R.Item)
    ensures R.Eligible(y) <==> Listable(y)
  {
    hide Usable;
  }

  lemma FirstFiftyPairs(s: seq<Key>)
    ensures |R.Capped(s)| <= 50 && (|s| <= 50 ==> R.Capped(s) == s)
    ensures forall x :: x in R.Capped(s) ==> x in s
  {
  }

  /** An observed finding that some record binds lists the registries of such records, all of them up to 50. */
  lemma RegisteredFindingMeans(items: seq<R.Item>, y: R.Item)
    requires R.ObservedBlock(items, y).Some? && R.ObservedBlock(items, y).value.ObservedAndRegistered?
    ensures var ks := R.ObservedBlock(items, y).value.registries;
            && |ks| <= 50
            && (forall k :: k in ks ==> exists x :: x in items && R.Binds(x, y) && KeyOf(x.carried.record) == k)
            && (|SortedPairs(R.RegistriesOf(items, y))| <= 50 ==>
                  forall x :: x in items && R.Binds(x, y) ==> KeyOf(x.carried.record) in ks)
  {
    FirstFiftyPairs(SortedPairs(R.RegistriesOf(items, y)));
    hide R.Binds, SortedPairs, R.Capped, Sorted, R.Eligible, R.AbsentFrom;
  }

  lemma UnboundMeans(items: seq<R.Item>, y: R.Item)
    ensures R.RecordsOf(items, y) == {} <==> forall x :: x in items ==> !R.Binds(x, y)
  {
    hide R.Binds;
    if x :| x in items && R.Binds(x, y) { assert x.finding.id in R.RecordsOf(items, y); }
  }

  /** An observed finding that is not registered names registries it is absent from, and no others. */
  lemma UnregisteredFindingMeans(items: seq<R.Item>, y: R.Item)
    requires R.ObservedBlock(items, y).Some? && R.ObservedBlock(items, y).value.ObservedNotRegistered?
    ensures R.Eligible(y) && (forall x :: x in items ==> !R.Binds(x, y))
    ensures var ks := R.ObservedBlock(items, y).value.absentFrom;
            && |ks| <= 50
            && (forall k :: k in ks ==> R.AbsentFrom(items, k, y) && exists x :: x in items && OfRegistry(x, k.0, k.1))
  {
    UnboundMeans(items, y);
    var absent := set k | k in R.IdentifiedKeys(items) && R.AbsentFrom(items, k, y);
    FirstFiftyPairs(SortedPairs(absent));
    forall k | k in R.IdentifiedKeys(items) ensures exists x :: x in items && OfRegistry(x, k.0, k.1) {
      var x :| x in items && R.Identified(x) && KeyOf(x.carried.record) == k;
      assert OfRegistry(x, k.0, k.1);
    }
    hide R.Binds, SortedPairs, R.Capped, Sorted, R.Eligible, R.AbsentFrom, R.IdentifiedKeys, OfRegistry;
  }
}
