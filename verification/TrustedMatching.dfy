/** What an approval by a trusted registry rests on. */
module TrustedMatching {
  import opened Glob
  import opened RegistryEntries
  import opened Text
  import opened RegistryRecords
  import opened TrustedApprovals

  // ---------------------------------------------------------------- the book holds exactly the accepted records' entries

  // Entries that grant the same approval; only the owner shown may differ.
  predicate SameGrant(a: Entry, b: Entry) {
    a.(owner := None) == b.(owner := None)
  }

  ghost predicate BindsWith(os: seq<Observed>, trusted: seq<Policy>, offline: set<string>, o: Observed, b: Binding) {
    o in os && Accepted(o, trusted, offline) && b in o.record.value.bindings && UsableBinding(b)
  }

  ghost predicate BoundFrom(os: seq<Observed>, trusted: seq<Policy>, offline: set<string>, resource: string, e: Entry) {
    exists o, b :: BindsWith(os, trusted, offline, o, b) && b.resource == resource && e == BoundEntry(o.record.value, b)
  }

  ghost predicate OwnedBy(os: seq<Observed>, trusted: seq<Policy>, offline: set<string>, o: Observed) {
    o in os && Accepted(o, trusted, offline) && !Blank(o.finding.resource)
  }

  ghost predicate Listed(book: Book, r: Record, b: Binding) {
    exists e :: e in At(book.byResource, b.resource) && SameGrant(e, BoundEntry(r, b))
  }

  // Every grant already seen has an entry.
  ghost predicate SeenIsListed(book: Book) {
    forall r, b :: UsableBinding(b) && GrantOf(r, b) in book.seen ==> Listed(book, r, b)
  }

  lemma BoundKeeps(book: Book, r: Record, b: Binding)
    requires SeenIsListed(book)
    ensures SeenIsListed(Bound(book, r, b)) && (UsableBinding(b) ==> Listed(Bound(book, r, b), r, b))
    ensures forall q, c :: Listed(book, q, c) ==> Listed(Bound(book, r, b), q, c)
    ensures forall res, e :: e in At(Bound(book, r, b).byResource, res) ==>
                               e in At(book.byResource, res) || (UsableBinding(b) && res == b.resource && e == BoundEntry(r, b))
    ensures Bound(book, r, b).own == book.own
  {
    hide UsableBinding, BoundEntry;
    var next := Bound(book, r, b);
    forall q, c | Listed(book, q, c) ensures Listed(next, q, c) {
      var e :| e in At(book.byResource, c.resource) && SameGrant(e, BoundEntry(q, c));
      assert e in At(next.byResource, c.resource);
    }
    if UsableBinding(b) {
      if GrantOf(r, b) !in book.seen {
        assert BoundEntry(r, b) in At(next.byResource, b.resource);
        assert Listed(next, r, b);
      }
      forall q, c | UsableBinding(c) && GrantOf(q, c) in next.seen ensures Listed(next, q, c) {
        if GrantOf(q, c) !in book.seen {
          SameGrantSameEntry(q, c, r, b);
          assert BoundEntry(r, b) in At(next.byResource, c.resource);
        } else {
          assert Listed(book, q, c);
        }
      }
    }
  }

  lemma SameGrantSameEntry(q: Record, c: Binding, r: Record, b: Binding)
    requires GrantOf(q, c) == GrantOf(r, b)
    ensures SameGrant(BoundEntry(r, b), BoundEntry(q, c)) && c.resource == b.resource
  {
    hide LiteralPattern, Strip, AgentId;
  }

  lemma {:induction false} AllBoundKeeps(book: Book, r: Record, bs: seq<Binding>)
    requires SeenIsListed(book)
    ensures SeenIsListed(AllBound(book, r, bs))
    ensures forall b :: b in bs && UsableBinding(b) ==> Listed(AllBound(book, r, bs), r, b)
    ensures forall q, c :: Listed(book, q, c) ==> Listed(AllBound(book, r, bs), q, c)
    ensures forall res, e :: e in At(AllBound(book, r, bs).byResource, res) ==>
                               e in At(book.byResource, res)
                               || exists b :: b in bs && UsableBinding(b) && b.resource == res && e == BoundEntry(r, b)
    ensures AllBound(book, r, bs).own == book.own
    decreases |bs|
  {
    if bs != [] {
      var n := |bs| - 1;
      AllBoundKeeps(book, r, bs[..n]);
      BoundKeeps(AllBound(book, r, bs[..n]), r, bs[n]);
      assert bs == bs[..n] + [bs[n]];
      hide UsableBinding, BoundEntry, Bound, SeenIsListed, Listed, At;
    }
  }

  // The entries by resource are those of the accepted records' usable bindings.
  ghost predicate BoundIs(book: Book, os: seq<Observed>, trusted: seq<Policy>, offline: set<string>) {
    && SeenIsListed(book)
    && (forall res, e :: e in At(book.byResource, res) ==> BoundFrom(os, trusted, offline, res, e))
    && (forall o, b :: BindsWith(os, trusted, offline, o, b) ==> ListedFor(book, o, b))
  }

  ghost predicate ListedFor(book: Book, o: Observed, b: Binding) {
    o.record.Some? && Listed(book, o.record.value, b)
  }

  ghost predicate OwnedAs(own: map<nat, Entry>, o: Observed) {
    o.record.Some? && o.finding.handle in own && own[o.finding.handle] == OwnEntry(o)
  }

  // The entries by finding are those of the accepted record findings.
  ghost predicate OwnIs(own: map<nat, Entry>, os: seq<Observed>, trusted: seq<Policy>, offline: set<string>) {
    && (forall k :: k in own ==> exists o :: OwnedBy(os, trusted, offline, o) && o.finding.handle == k && OwnedAs(own, o))
    && (forall o :: OwnedBy(os, trusted, offline, o) ==> OwnedAs(own, o))
  }

  // A handle names one finding object.
  ghost predicate UniqueHandles(os: seq<Observed>) {
    forall i, j :: 0 <= i < j < |os| ==> os[i].finding.handle != os[j].finding.handle
  }

  lemma RefusedIsNotAccepted(o: Observed, trusted: seq<Policy>, offline: set<string>)
    requires o.record.Some? && PolicyOf(trusted, KeyOf(o.record.value)).Some?
    ensures Refused(o.record.value, PolicyOf(trusted, KeyOf(o.record.value)).value, o.finding.id in offline).Some?
            ==> !Accepted(o, trusted, offline)
  {
    WithheldIsNotApproved(o.record.value, PolicyOf(trusted, KeyOf(o.record.value)).value);
    hide PolicyOf, Usable, PolicyApproves, WithheldReason;
  }

  // What one finding adds to the book.
  lemma NotedIs(book: Book, o: Observed, trusted: seq<Policy>, offline: set<string>)
    ensures var next := Noted(book, o, trusted, offline);
            if Accepted(o, trusted, offline) then
              exists known: Book ::
                known.seen == book.seen && known.byResource == book.byResource
                && known.own == (if Blank(o.finding.resource) then book.own else book.own[o.finding.handle := OwnEntry(o)])
                && next == AllBound(known, o.record.value, o.record.value.bindings)
            else next.own == book.own && next.byResource == book.byResource && next.seen == book.seen
  {
    if o.record.Some? && PolicyOf(trusted, KeyOf(o.record.value)).Some? { RefusedIsNotAccepted(o, trusted, offline); }
    hide PolicyOf, Refused, AllBound, OwnEntry, Blank;
    if Accepted(o, trusted, offline) {
      var r := o.record.value;
      var owned := if Blank(o.finding.resource) then book.own else book.own[o.finding.handle := OwnEntry(o)];
      var known := book.(produced := book.produced + {KeyOf(r)}, own := owned,
                         approved := book.approved + {(AgentId(r), r.registryId)});
      assert Noted(book, o, trusted, offline) == AllBound(known, r, r.bindings);
    }
  }

  lemma BoundOneMore(book: Book, rest: seq<Observed>, o: Observed, trusted: seq<Policy>, offline: set<string>)
    requires BoundIs(book, rest, trusted, offline)
    ensures BoundIs(Noted(book, o, trusted, offline), rest + [o], trusted, offline)
  {
    var next := Noted(book, o, trusted, offline);
    NotedIs(book, o, trusted, offline);
    hide Noted, UsableBinding, BoundEntry, Accepted, OwnEntry;
    forall x ensures x in rest + [o] <==> x in rest || x == o { }
    if Accepted(o, trusted, offline) {
      var known: Book :| known.seen == book.seen && known.byResource == book.byResource
                         && next == AllBound(known, o.record.value, o.record.value.bindings);
      assert SeenIsListed(known) by { forall r, b | Listed(book, r, b) ensures Listed(known, r, b) { } }
      AllBoundKeeps(known, o.record.value, o.record.value.bindings);
      hide AllBound;
      forall x, b | BindsWith(rest + [o], trusted, offline, x, b) ensures ListedFor(next, x, b) {
        if x in rest {
          assert BindsWith(rest, trusted, offline, x, b) && ListedFor(book, x, b);
          assert Listed(known, x.record.value, b);
        }
      }
      forall res, e | e in At(next.byResource, res) ensures BoundFrom(rest + [o], trusted, offline, res, e) {
        if e in At(book.byResource, res) {
          BoundFromMore(rest, o, trusted, offline, res, e);
        } else {
          var b :| b in o.record.value.bindings && UsableBinding(b) && b.resource == res && e == BoundEntry(o.record.value, b);
          assert BindsWith(rest + [o], trusted, offline, o, b);
        }
      }
    } else {
      forall r, b | Listed(book, r, b) ensures Listed(next, r, b) { }
      forall x, b | BindsWith(rest + [o], trusted, offline, x, b) ensures ListedFor(next, x, b) {
        assert BindsWith(rest, trusted, offline, x, b);
      }
      forall res, e | e in At(next.byResource, res) ensures BoundFrom(rest + [o], trusted, offline, res, e) {
        BoundFromMore(rest, o, trusted, offline, res, e);
      }
    }
  }

  lemma BoundFromMore(rest: seq<Observed>, o: Observed, trusted: seq<Policy>, offline: set<string>, res: string, e: Entry)
    requires BoundFrom(rest, trusted, offline, res, e)
    ensures BoundFrom(rest + [o], trusted, offline, res, e)
  {
    hide Accepted, UsableBinding, BoundEntry;
    var x, b :| BindsWith(rest, trusted, offline, x, b) && b.resource == res && e == BoundEntry(x.record.value, b);
    assert BindsWith(rest + [o], trusted, offline, x, b);
  }

  lemma OwnOneMore(book: Book, rest: seq<Observed>, o: Observed, trusted: seq<Policy>, offline: set<string>)
    requires OwnIs(book.own, rest, trusted, offline) && SeenIsListed(book)
    requires forall x :: x in rest ==> x.finding.handle != o.finding.handle
    ensures OwnIs(Noted(book, o, trusted, offline).own, rest + [o], trusted, offline)
  {
    var next := Noted(book, o, trusted, offline);
    NotedIs(book, o, trusted, offline);
    hide Noted, Accepted, OwnEntry, Blank;
    forall x ensures x in rest + [o] <==> x in rest || x == o { }
    var own := if Accepted(o, trusted, offline) && !Blank(o.finding.resource)
               then book.own[o.finding.handle := OwnEntry(o)] else book.own;
    assert next.own == own by {
      if Accepted(o, trusted, offline) {
        var known: Book :| known.seen == book.seen && known.byResource == book.byResource && known.own == own
                           && next == AllBound(known, o.record.value, o.record.value.bindings);
        forall r, b | Listed(book, r, b) ensures Listed(known, r, b) { }
        AllBoundKeeps(known, o.record.value, o.record.value.bindings);
      }
    }
    hide SeenIsListed, AllBound;
    forall x | OwnedBy(rest + [o], trusted, offline, x) ensures OwnedAs(own, x) {
      if x in rest { assert OwnedBy(rest, trusted, offline, x) && OwnedAs(book.own, x); }
    }
    forall k | k in own ensures exists x :: OwnedBy(rest + [o], trusted, offline, x) && x.finding.handle == k && OwnedAs(own, x) {
      if k in book.own && (own == book.own || k != o.finding.handle) {
        var x :| OwnedBy(rest, trusted, offline, x) && x.finding.handle == k && OwnedAs(book.own, x);
        assert OwnedBy(rest + [o], trusted, offline, x) && OwnedAs(own, x);
      } else {
        assert OwnedBy(rest + [o], trusted, offline, o) && OwnedAs(own, o);
      }
    }
  }

  lemma {:induction false} BookIs(os: seq<Observed>, trusted: seq<Policy>, offline: set<string>)
    requires UniqueHandles(os)
    ensures BoundIs(BookOf(os, trusted, offline), os, trusted, offline)
    ensures OwnIs(BookOf(os, trusted, offline).own, os, trusted, offline)
    decreases |os|
  {
    hide BoundIs, OwnIs, Noted;
    if os == [] {
      EmptyBookIs(trusted, offline);
    } else {
      var n := |os| - 1;
      var rest, o := os[..n], os[n];
      BookIs(rest, trusted, offline);
      assert os == rest + [o];
      forall x | x in rest ensures x.finding.handle != o.finding.handle {
        var i :| 0 <= i < n && rest[i] == x;
        assert os[i].finding.handle != os[n].finding.handle;
      }
      assert SeenIsListed(BookOf(rest, trusted, offline)) by { BoundImpliesSeen(BookOf(rest, trusted, offline), rest, trusted, offline); }
      BoundOneMore(BookOf(rest, trusted, offline), rest, o, trusted, offline);
      OwnOneMore(BookOf(rest, trusted, offline), rest, o, trusted, offline);
    }
  }

  lemma BoundImpliesSeen(book: Book, os: seq<Observed>, trusted: seq<Policy>, offline: set<string>)
    requires BoundIs(book, os, trusted, offline)
    ensures SeenIsListed(book)
  {
  }

  lemma EmptyBookIs(trusted: seq<Policy>, offline: set<string>)
    ensures BoundIs(EMPTY, [], trusted, offline) && OwnIs(EMPTY.own, [], trusted, offline)
  {
  }

  // ---------------------------------------------------------------- when a record's entry approves a finding

  predicate AccountCovers(rules: Rules, account: Option<string>, f: Finding) {
    account.Some? ==>
      if f.provider == Some(ATLASSIAN)
      then f.account.Some? && rules.origin(f.account.value).Some? && rules.origin(account.value) == rules.origin(f.account.value)
      else f.account == account
  }

  predicate AccountNamed(account: Option<string>, f: Finding) {
    f.provider.Some? && f.provider.value in NEED_ACCOUNT ==> account.Some?
  }

  function Only(s: Option<string>): seq<string> {
    if s.Some? then [s.value] else []
  }

  // A constraint that is set, without its padding.
  function Given(s: Option<string>): Option<string> {
    if s.Some? && !Blank(s.value) then Some(Strip(s.value)) else None
  }

  lemma AccountIsExact(rules: Rules, e: Entry, account: Option<string>, f: Finding)
    requires e.accounts == Only(account)
    ensures AccountMatches(rules, e, f) <==> AccountCovers(rules, account, f)
    ensures e.accounts != [] <==> account.Some?
  {
    if account.Some? { assert account.value in e.accounts; }
  }

  lemma ListIsExact(wanted: Option<string>, actual: Option<string>)
    ensures Only(wanted) == [] || (actual.Some? && actual.value in Only(wanted)) <==> Agrees(wanted, actual)
  {
  }

  /** The entry a record confers for a resource approves exactly the findings with that resource and the scope it sets. */
  lemma EntryIsExact(rules: Rules, r: Record, resource: string, provider: Option<string>, account: Option<string>,
                     region: Option<string>, f: Finding)
    ensures Approves(rules, EntryFor(r, resource, provider, account, region), f) <==>
            && f.resource == Strip(resource) && Agrees(Given(provider), f.provider) && Agrees(Given(region), f.region)
            && AccountCovers(rules, Given(account), f) && AccountNamed(Given(account), f)
  {
    var e := EntryFor(r, resource, provider, account, region);
    StripOfPattern(resource, f.resource);
    assert e.resources[0] in e.resources && forall p :: p in e.resources ==> p == e.resources[0];
    assert e.providers == Only(Given(provider)) && e.accounts == Only(Given(account)) && e.regions == Only(Given(region));
    AccountIsExact(rules, e, Given(account), f);
    ListIsExact(Given(provider), f.provider);
    ListIsExact(Given(region), f.region);
    hide EntryFor, LiteralPattern, Strip, Blank, Matches, Contains, Agrees, AccountCovers, AccountMatches, Only, Given;
  }

  /** The entry of a usable binding approves exactly the findings with its resource and scope. */
  lemma BoundEntryIsExact(rules: Rules, r: Record, b: Binding, f: Finding)
    requires UsableBinding(b)
    ensures Approves(rules, BoundEntry(r, b), f) <==>
            && f.resource == b.resource && Agrees(b.provider, f.provider) && Agrees(b.region, f.region)
            && AccountCovers(rules, b.account, f) && AccountNamed(b.account, f)
  {
    EntryIsExact(rules, r, b.resource, b.provider, b.account, b.region, f);
    UsableConstraint(b.provider);
    UsableConstraint(b.account);
    UsableConstraint(b.region);
    hide EntryFor, Approves, Agrees, AccountCovers, AccountNamed, Given, UsableOption;
  }

  lemma UsableConstraint(s: Option<string>)
    requires UsableOption(s)
    ensures Given(s) == s
  {
  }

  /** The entry of a record finding approves exactly the findings with its own resource, unpadded, and its own scope. */
  lemma OwnEntryIsExact(rules: Rules, o: Observed, f: Finding)
    requires o.record.Some?
    ensures Approves(rules, OwnEntry(o), f) <==>
            && f.resource == Strip(o.finding.resource)
            && Agrees(Given(o.finding.provider), f.provider) && Agrees(Given(o.finding.region), f.region)
            && AccountCovers(rules, Given(o.finding.account), f) && AccountNamed(Given(o.finding.account), f)
  {
    var own := o.finding;
    EntryIsExact(rules, o.record.value, own.resource, own.provider, own.account, own.region, f);
    hide EntryFor, Approves, Agrees, AccountCovers, AccountNamed, Given;
  }

  // An accepted record of this run covers f: it is f's own record, or it binds f exactly.
  ghost predicate Covers(rules: Rules, os: seq<Observed>, trusted: seq<Policy>, offline: set<string>, o: Observed, f: Finding) {
    || (OwnedBy(os, trusted, offline, o) && o.finding.handle == f.handle && Approves(rules, OwnEntry(o), f))
    || (exists b :: BindsWith(os, trusted, offline, o, b) && Approves(rules, BoundEntry(o.record.value, b), f))
  }

  predicate Confers(o: Observed, e: Entry) {
    o.record.Some? && e.agentId == AgentId(o.record.value) && e.source == Some(SourceOf(o.record.value))
  }

  lemma SameGrantApproves(rules: Rules, a: Entry, b: Entry, f: Finding)
    requires SameGrant(a, b)
    ensures Approves(rules, a, f) <==> Approves(rules, b, f)
  {
    hide Matches, AccountMatches;
    assert a.resources == b.resources && a.surfaces == b.surfaces && a.providers == b.providers && a.accounts == b.accounts
           && a.regions == b.regions && a.discriminators == b.discriminators;
    assert AccountMatches(rules, a, f) == AccountMatches(rules, b, f) by { SameAccounts(rules, a, b, f); }
  }

  lemma SameAccounts(rules: Rules, a: Entry, b: Entry, f: Finding)
    requires a.accounts == b.accounts
    ensures AccountMatches(rules, a, f) == AccountMatches(rules, b, f)
  {
  }

  /** Every approving candidate comes from a record that covers the finding. */
  lemma CandidateIsCovered(rules: Rules, os: seq<Observed>, trusted: seq<Policy>, offline: set<string>, f: Finding, e: Entry)
    requires UniqueHandles(os)
    requires e in CandidatesOf(BookOf(os, trusted, offline), f) && Approves(rules, e, f)
    ensures exists o :: Covers(rules, os, trusted, offline, o, f) && Confers(o, e)
  {
    var book := BookOf(os, trusted, offline);
    BookIs(os, trusted, offline);
    hide Accepted, Approves, BookOf, UsableBinding;
    if e in At(book.byResource, f.resource) {
      assert BoundFrom(os, trusted, offline, f.resource, e);
      var o, b :| BindsWith(os, trusted, offline, o, b) && b.resource == f.resource && e == BoundEntry(o.record.value, b);
      assert Covers(rules, os, trusted, offline, o, f) && Confers(o, e);
    } else {
      var o :| OwnedBy(os, trusted, offline, o) && o.finding.handle == f.handle && OwnedAs(book.own, o);
      assert Covers(rules, os, trusted, offline, o, f) && Confers(o, e);
    }
  }

  /** Every record that covers the finding offers a candidate that approves it. */
  lemma CoverIsCandidate(rules: Rules, os: seq<Observed>, trusted: seq<Policy>, offline: set<string>, f: Finding, o: Observed)
    requires UniqueHandles(os) && Covers(rules, os, trusted, offline, o, f)
    ensures exists e :: e in CandidatesOf(BookOf(os, trusted, offline), f) && Approves(rules, e, f) && Confers(o, e)
  {
    var book := BookOf(os, trusted, offline);
    BookIs(os, trusted, offline);
    hide Accepted, Approves, BookOf, UsableBinding;
    if OwnedBy(os, trusted, offline, o) && o.finding.handle == f.handle && Approves(rules, OwnEntry(o), f) {
      assert OwnedAs(book.own, o);
      assert OwnEntry(o) in CandidatesOf(book, f) && Confers(o, OwnEntry(o));
    } else {
      var b :| BindsWith(os, trusted, offline, o, b) && Approves(rules, BoundEntry(o.record.value, b), f);
      assert ListedFor(book, o, b);
      var e :| e in At(book.byResource, b.resource) && SameGrant(e, BoundEntry(o.record.value, b));
      SameGrantApproves(rules, e, BoundEntry(o.record.value, b), f);
      BoundEntryIsExact(rules, o.record.value, b, f);
      assert e in CandidatesOf(book, f) && Confers(o, e);
    }
  }

  predicate SameAgent(o: Observed, p: Observed) {
    o.record.Some? && p.record.Some? && AgentId(o.record.value) == AgentId(p.record.value)
    && o.record.value.registryId == p.record.value.registryId
  }

  ghost predicate Covered(rules: Rules, os: seq<Observed>, trusted: seq<Policy>, offline: set<string>, f: Finding) {
    exists o :: Covers(rules, os, trusted, offline, o, f)
  }

  // All records that cover f are records of one agent in one registry.
  ghost predicate CoversAgree(rules: Rules, os: seq<Observed>, trusted: seq<Policy>, offline: set<string>, f: Finding) {
    forall o, p :: Covers(rules, os, trusted, offline, o, f) && Covers(rules, os, trusted, offline, p, f) ==> SameAgent(o, p)
  }

  /** A trusted registry's record sanctions a finding exactly when its identity is usable and its caller authenticated, no
      loaded entry approves it, some accepted record of this run covers it, and all that do are the same approval. */
  lemma TrustedApprovalIs(rules: Rules, loaded: seq<Entry>, os: seq<Observed>, trusted: seq<Policy>, offline: set<string>,
                          f: Finding)
    requires UniqueHandles(os)
    ensures var d := Decide(rules, loaded, CandidatesOf(BookOf(os, trusted, offline), f), f);
            (d.entry.Some? && NoneApproves(rules, loaded, f)) <==>
            && PassesAll(f.checks) && f.assurance.None? && NoneApproves(rules, loaded, f)
            && Covered(rules, os, trusted, offline, f) && CoversAgree(rules, os, trusted, offline, f)
  {
    var extra := CandidatesOf(BookOf(os, trusted, offline), f);
    ApprovalIsUnambiguous(rules, loaded, extra, f);
    NoApproval(rules, loaded, f);
    hide Approves, Covers, Decide, BookOf, CandidatesOf, Approving, Covered, CoversAgree, NoneApproves, OneApproval;
    OneApprovalIs(rules, os, trusted, offline, f);
  }

  /** The approval returned then comes from such a record. */
  lemma TrustedEntryIsOfARecord(rules: Rules, loaded: seq<Entry>, os: seq<Observed>, trusted: seq<Policy>,
                                offline: set<string>, f: Finding)
    requires UniqueHandles(os)
    requires var d := Decide(rules, loaded, CandidatesOf(BookOf(os, trusted, offline), f), f);
             d.entry.Some? && d.entry.value !in loaded
    ensures var d := Decide(rules, loaded, CandidatesOf(BookOf(os, trusted, offline), f), f);
            NoneApproves(rules, loaded, f) && exists o :: Covers(rules, os, trusted, offline, o, f) && Confers(o, d.entry.value)
  {
    var extra := CandidatesOf(BookOf(os, trusted, offline), f);
    ApprovalIsUnambiguous(rules, loaded, extra, f);
    hide Approves, Covers, Decide, BookOf, Confers, NoneApproves, OneApproval;
    CandidateIsCovered(rules, os, trusted, offline, f, Decide(rules, loaded, extra, f).entry.value);
  }

  lemma SourceIsInjective(r: Record, q: Record)
    ensures SourceOf(r) == SourceOf(q) <==> r.registryId == q.registryId
  {
    var prefix := "trusted-registry:";
    assert SourceOf(r)[|prefix|..] == r.registryId && SourceOf(q)[|prefix|..] == q.registryId;
  }

  lemma ConferredAlike(o: Observed, p: Observed, a: Entry, b: Entry)
    requires Confers(o, a) && Confers(p, b)
    ensures SameAgent(o, p) <==> SameApproval(a, b)
  {
    SourceIsInjective(o.record.value, p.record.value);
    hide SourceOf, AgentId;
  }

  lemma OneApprovalIs(rules: Rules, os: seq<Observed>, trusted: seq<Policy>, offline: set<string>, f: Finding)
    requires UniqueHandles(os)
    ensures OneApproval(rules, CandidatesOf(BookOf(os, trusted, offline), f), f) <==>
            Covered(rules, os, trusted, offline, f) && CoversAgree(rules, os, trusted, offline, f)
  {
    hide Approves, Covers, SameAgent, SameApproval, Confers, CandidatesOf, BookOf;
    var extra := CandidatesOf(BookOf(os, trusted, offline), f);
    if OneApproval(rules, extra, f) {
      var e :| e in extra && Approves(rules, e, f);
      CandidateIsCovered(rules, os, trusted, offline, f, e);
      forall o, p | Covers(rules, os, trusted, offline, o, f) && Covers(rules, os, trusted, offline, p, f) ensures SameAgent(o, p) {
        CoverIsCandidate(rules, os, trusted, offline, f, o);
        CoverIsCandidate(rules, os, trusted, offline, f, p);
        var a :| a in extra && Approves(rules, a, f) && Confers(o, a);
        var b :| b in extra && Approves(rules, b, f) && Confers(p, b);
        ConferredAlike(o, p, a, b);
      }
    }
    if Covered(rules, os, trusted, offline, f) && CoversAgree(rules, os, trusted, offline, f) {
      var o :| Covers(rules, os, trusted, offline, o, f);
      CoverIsCandidate(rules, os, trusted, offline, f, o);
      forall a, b | a in extra && b in extra && Approves(rules, a, f) && Approves(rules, b, f) ensures SameApproval(a, b) {
        CandidateIsCovered(rules, os, trusted, offline, f, a);
        CandidateIsCovered(rules, os, trusted, offline, f, b);
        var q :| Covers(rules, os, trusted, offline, q, f) && Confers(q, a);
        var p :| Covers(rules, os, trusted, offline, p, f) && Confers(p, b);
        ConferredAlike(q, p, a, b);
      }
    }
  }

  /** The matching as the engine runs it: what the approvals offer is matched together with the loaded inventory, and an
      entry that is not a loaded one belongs to a covering record. */
  method Sanction(approvals: Approvals, state: MatchState, rules: Rules, loaded: seq<Entry>, os: seq<Observed>,
                  trusted: seq<Policy>, offline: set<string>, f: Finding) returns (entry: Option<Entry>)
    requires UniqueHandles(os) && approvals.Candidates(f) == CandidatesOf(BookOf(os, trusted, offline), f)
    modifies state
    ensures entry == Decide(rules, loaded, CandidatesOf(BookOf(os, trusted, offline), f), f).entry
    ensures entry.Some? && entry.value !in loaded ==>
              NoneApproves(rules, loaded, f) && exists o :: Covers(rules, os, trusted, offline, o, f) && Confers(o, entry.value)
  {
    hide BookOf, CandidatesOf, Decide, Covers, Confers, NoneApproves, UniqueHandles;
    entry := state.Match(rules, loaded, approvals.Candidates(f), f);
    if entry.Some? && entry.value !in loaded {
      TrustedEntryIsOfARecord(rules, loaded, os, trusted, offline, f);
    }
  }
}
