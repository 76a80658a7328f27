/** The approvals that records of trusted registries confer in one run (TrustedApprovals, _entry, _approves and
    _withheld_reason in shadowscan/registries.py), matched together with the loaded inventory. */
module TrustedApprovals {
  import opened Glob
  import opened RegistryEntries
  import opened Text
  import opened RegistryRecords

  datatype Policy = Policy(registry: string, id: string, allowAuto: bool, allowRegistered: bool, allowOffline: bool)

  // A finding of this run and the record it carries, if any.
  datatype Observed = Observed(finding: Finding, record: Option<Record>)

  datatype Refusal = AutoApproved | NoReviewer | RegisteredOnly | OfflineReplayed

  const UNTRUSTABLE := {"entra-agent-registry"}

  // ---------------------------------------------------------------- which records approve

  // The policies dictionary: a later entry for the same registry replaces an earlier one.
  function PolicyOf(trusted: seq<Policy>, k: Key): Option<Policy> {
    if trusted == [] then None
    else
      var p := trusted[|trusted| - 1];
      if p.registry !in UNTRUSTABLE && (p.registry, p.id) == k then Some(p) else PolicyOf(trusted[..|trusted| - 1], k)
  }

  function WithheldReason(r: Record, p: Policy): Option<Refusal> {
    if r.status.ApprovedStatus? && !r.mode.Manual? && !p.allowAuto then
      if r.mode.Auto? then Some(AutoApproved) else Some(NoReviewer)
    else if r.status.Registered? && !p.allowRegistered then Some(RegisteredOnly)
    else None
  }

  predicate PolicyApproves(r: Record, p: Policy) {
    if r.status.ApprovedStatus? then r.mode.Manual? || p.allowAuto else r.status.Registered? && p.allowRegistered
  }

  /** The refusal and the approval rules agree: a record of an approvable status is withheld exactly when it is not approved,
      and no other status is either. */
  lemma WithheldIsNotApproved(r: Record, p: Policy)
    ensures WithheldReason(r, p).Some? ==> !PolicyApproves(r, p)
    ensures WithheldReason(r, p).None? && (r.status.ApprovedStatus? || r.status.Registered?) ==> PolicyApproves(r, p)
    ensures PolicyApproves(r, p) ==> r.status.ApprovedStatus? || r.status.Registered?
  {
  }

  predicate Accepted(o: Observed, trusted: seq<Policy>, offline: set<string>): (ok: bool)
    ensures ok ==> o.record.Some?
  {
    && o.record.Some?
    && var p := PolicyOf(trusted, KeyOf(o.record.value));
       p.Some? && PolicyApproves(o.record.value, p.value) && Usable(o.record.value.recordId)
       && (o.finding.id in offline ==> p.value.allowOffline)
  }

  // ---------------------------------------------------------------- the entries they become

  function AgentId(r: Record): string {
    r.registry + ":" + r.recordId
  }

  function SourceOf(r: Record): string {
    "trusted-registry:" + r.registryId
  }

  function Constraint(s: Option<string>): seq<string> {
    if s.Some? && !Blank(s.value) then [Strip(s.value)] else []
  }

  function EntryFor(r: Record, resource: string, provider: Option<string>, account: Option<string>, region: Option<string>): Entry {
    Entry(AgentId(r), Some(SourceOf(r)), r.publisher, [Strip(LiteralPattern(resource))], [],
          Constraint(provider), Constraint(account), Constraint(region), [])
  }

  function BoundEntry(r: Record, b: Binding): Entry {
    EntryFor(r, b.resource, b.provider, b.account, b.region)
  }

  function OwnEntry(o: Observed): Entry
    requires o.record.Some?
  {
    EntryFor(o.record.value, o.finding.resource, o.finding.provider, o.finding.account, o.finding.region)
  }

  // ---------------------------------------------------------------- collecting them

  datatype Grant = Grant(agentId: string, registryId: string, resource: string, provider: Option<string>,
                         account: Option<string>, region: Option<string>)

  datatype Book = Book(own: map<nat, Entry>, byResource: map<string, seq<Entry>>, seen: set<Grant>,
                       produced: set<Key>, approved: set<Key>, withheld: multiset<(Key, Refusal)>)

  const EMPTY := Book(map[], map[], {}, {}, {}, multiset{})

  function GrantOf(r: Record, b: Binding): Grant {
    Grant(AgentId(r), r.registryId, b.resource, b.provider, b.account, b.region)
  }

  function At(m: map<string, seq<Entry>>, resource: string): seq<Entry> {
    if resource in m then m[resource] else []
  }

  function Bound(book: Book, r: Record, b: Binding): Book {
    if !UsableBinding(b) || GrantOf(r, b) in book.seen then book
    else
      book.(seen := book.seen + {GrantOf(r, b)},
            byResource := book.byResource[b.resource := At(book.byResource, b.resource) + [BoundEntry(r, b)]])
  }

  function AllBound(book: Book, r: Record, bs: seq<Binding>): Book {
    if bs == [] then book else Bound(AllBound(book, r, bs[..|bs| - 1]), r, bs[|bs| - 1])
  }

  function Refused(r: Record, p: Policy, isOffline: bool): Option<Refusal> {
    if WithheldReason(r, p).Some? then WithheldReason(r, p)
    else if PolicyApproves(r, p) && Usable(r.recordId) && isOffline && !p.allowOffline then Some(OfflineReplayed)
    else None
  }

  function Noted(book: Book, o: Observed, trusted: seq<Policy>, offline: set<string>): Book {
    if o.record.None? || PolicyOf(trusted, KeyOf(o.record.value)).None? then book
    else
      var r := o.record.value;
      var refused := Refused(r, PolicyOf(trusted, KeyOf(r)).value, o.finding.id in offline);
      var known := book.(produced := book.produced + {KeyOf(r)});
      if refused.Some? then known.(withheld := known.withheld + multiset{(KeyOf(r), refused.value)})
      else if !Accepted(o, trusted, offline) then known
      else
        var owned := if Blank(o.finding.resource) then known.own else known.own[o.finding.handle := OwnEntry(o)];
        AllBound(known.(own := owned, approved := known.approved + {(AgentId(r), r.registryId)}), r, r.bindings)
  }

  function BookOf(os: seq<Observed>, trusted: seq<Policy>, offline: set<string>): Book {
    if os == [] then EMPTY
    else Noted(BookOf(os[..|os| - 1], trusted, offline), os[|os| - 1], trusted, offline)
  }

  // The loop over one record's bindings: one entry for each usable grant not seen before.
  method BindAll(ghost book: Book, r: Record, byResource: map<string, seq<Entry>>, seen: set<Grant>)
    returns (bound: map<string, seq<Entry>>, granted: set<Grant>)
    requires book.byResource == byResource && book.seen == seen
    ensures AllBound(book, r, r.bindings) == book.(byResource := bound, seen := granted)
  {
    hide BoundEntry, UsableBinding, GrantOf;
    bound, granted := byResource, seen;
    for m := 0 to |r.bindings|
      invariant AllBound(book, r, r.bindings[..m]) == book.(byResource := bound, seen := granted)
    {
      var b := r.bindings[m];
      assert r.bindings[..m + 1][..m] == r.bindings[..m];
      if UsableBinding(b) && GrantOf(r, b) !in granted {
        granted := granted + {GrantOf(r, b)};
        bound := bound[b.resource := At(bound, b.resource) + [BoundEntry(r, b)]];
      }
    }
    assert r.bindings[..|r.bindings|] == r.bindings;
  }

  function Offered(own: map<nat, Entry>, byResource: map<string, seq<Entry>>, f: Finding): seq<Entry> {
    At(byResource, f.resource) + (if f.handle in own then [own[f.handle]] else [])
  }

  function CandidatesOf(book: Book, f: Finding): seq<Entry> {
    Offered(book.own, book.byResource, f)
  }

  class Approvals {
    var own: map<nat, Entry>
    var byResource: map<string, seq<Entry>>
    var produced: set<Key>
    var withheld: multiset<(Key, Refusal)>
    var entries: nat

    constructor (os: seq<Observed>, trusted: seq<Policy>, offline: set<string>)
      ensures var b := BookOf(os, trusted, offline);
              own == b.own && byResource == b.byResource && produced == b.produced && withheld == b.withheld
              && entries == |b.approved| && forall f :: Candidates(f) == CandidatesOf(b, f)
    {
      own, byResource, produced, withheld, entries := map[], map[], {}, multiset{}, 0;
      new;
      hide Accepted, OwnEntry, AllBound, Refused, PolicyOf, Blank, Offered;
      var approved: set<Key> := {};
      var seen: set<Grant> := {};
      ghost var book := EMPTY;
      for n := 0 to |os|
        invariant book == Book(own, byResource, seen, produced, approved, withheld) == BookOf(os[..n], trusted, offline)
      {
        var o := os[n];
        assert os[..n + 1][..n] == os[..n];
        book := Noted(book, o, trusted, offline);
        var policy := if o.record.None? then None else PolicyOf(trusted, KeyOf(o.record.value));
        if policy.None? {
          continue;
        }
        var r := o.record.value;
        produced := produced + {KeyOf(r)};
        var refused := Refused(r, policy.value, o.finding.id in offline);
        if refused.Some? {
          withheld := withheld + multiset{(KeyOf(r), refused.value)};
          continue;
        }
        if !Accepted(o, trusted, offline) {
          continue;
        }
        if !Blank(o.finding.resource) {
          own := own[o.finding.handle := OwnEntry(o)];
        }
        approved := approved + {(AgentId(r), r.registryId)};
        byResource, seen := BindAll(Book(own, byResource, seen, produced, approved, withheld), r, byResource, seen);
      }
      assert os[..|os|] == os;
      entries := |approved|;
    }

    function Candidates(f: Finding): seq<Entry>
      reads this
    {
      Offered(own, byResource, f)
    }
  }
}
