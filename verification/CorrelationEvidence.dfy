/** What a correlation link says about the two findings it joins, read off their fields. */
module CorrelationEvidence {
  import opened Ordering
  import opened CorrelationKeys
  import opened CorrelationLinks
  import opened Correlation
  import opened CorrelationConflicts

  // ---------------------------------------------------------------- which keys a finding uses

  // Identifier i of f is compared under the key k: its own kind and value, or what it refers to when it is spelled as a
  // qualified reference. A malformed reference is not compared, nor is a repository path in a code finding.
  predicate Gives(f: Facts, i: Identifier, k: Key) {
    && i.value.Some?
    && (|| (i.qualified.None? && !i.prefixed && k == (i.localKind, i.value.value))
        || (i.qualified.Some? && k == (i.qualified.value.kind, i.qualified.value.key)
            && !(f.surface == "code" && k.0 == "resource:gcp-name" && i.isPath)))
  }

  function ScopeOf(f: Facts, i: Identifier): ScopeMap
    requires Declared(f).Some?
  {
    if i.qualified.Some? then i.qualified.value.scope else Declared(f).value
  }

  ghost predicate GivenIn(f: Facts, ids: seq<Identifier>, k: Key, source: string) {
    exists n :: 0 <= n < |ids| && Gives(f, ids[n], k) && ids[n].source == source
  }

  // e is what the identifiers of f make of key k: the fields of all that give it, the scope of the first.
  ghost predicate MadeBy(f: Facts, ids: seq<Identifier>, k: Key, e: Entry)
    requires Declared(f).Some?
  {
    && e.connector == f.connector && e.surface == f.surface
    && (forall source :: source in e.fields <==> GivenIn(f, ids, k, source))
    && exists n :: 0 <= n < |ids| && Gives(f, ids[n], k) && (forall j :: 0 <= j < n ==> !Gives(f, ids[j], k))
                   && e.scope == ScopeOf(f, ids[n]) && e.global == ids[n].qualified.Some?
  }

  lemma IdentifierUseIs(f: Facts, i: Identifier, k: Key)
    requires Declared(f).Some?
    ensures |IdentifierUse(f, i)| <= 1
    ensures Gives(f, i, k) <==> |IdentifierUse(f, i)| == 1 && (IdentifierUse(f, i)[0].kind, IdentifierUse(f, i)[0].key) == k
    ensures Gives(f, i, k) ==> IdentifierUse(f, i)[0] == Use(k.0, k.1, i.source, ScopeOf(f, i), i.qualified.Some?)
  {
    hide Declared;
  }

  lemma OwnMore(f: Facts, uses: seq<Use>, u: Use, k: Key)
    ensures Own(f, uses + [u], k) ==
            if (u.kind, u.key) != k then Own(f, uses, k)
            else if Own(f, uses, k).Some? then Some(Own(f, uses, k).value.(fields := Own(f, uses, k).value.fields + {u.source}))
            else Some(Entry(f.connector, f.surface, u.scope, u.global, {u.source}))
  {
    assert (uses + [u])[..|uses|] == uses;
  }

  ghost predicate EntryIs(f: Facts, ids: seq<Identifier>, k: Key, e: Option<Entry>)
    requires Declared(f).Some?
  {
    && (e.Some? <==> exists n :: 0 <= n < |ids| && Gives(f, ids[n], k))
    && (e.Some? ==> MadeBy(f, ids, k, e.value))
  }

  lemma {:induction false} IdentifierEntry(f: Facts, ids: seq<Identifier>, k: Key)
    requires Declared(f).Some?
    ensures EntryIs(f, ids, k, Own(f, IdentifierUses(f, ids), k))
    decreases |ids|
  {
    if ids == [] {
      assert IdentifierUses(f, ids) == [];
    } else {
      var n := |ids| - 1;
      var rest, i := ids[..n], ids[n];
      assert ids == rest + [i];
      IdentifierEntry(f, rest, k);
      IdentifierUseIs(f, i, k);
      var before, more := IdentifierUses(f, rest), IdentifierUse(f, i);
      assert IdentifierUses(f, ids) == before + more;
      hide Declared, Own, IdentifierUses, IdentifierUse, ScopeOf, EntryIs, Gives;
      if more != [] { assert more == [more[0]]; OwnMore(f, before, more[0], k); } else { assert before + more == before; }
      if Gives(f, i, k) {
        OneMoreGives(f, rest, i, k, Own(f, before, k), Own(f, before + more, k).value);
      } else {
        OneLessGives(f, rest, i, k, Own(f, before, k));
      }
    }
  }

  lemma OneLessGives(f: Facts, rest: seq<Identifier>, i: Identifier, k: Key, e: Option<Entry>)
    requires Declared(f).Some? && !Gives(f, i, k) && EntryIs(f, rest, k, e)
    ensures EntryIs(f, rest + [i], k, e)
  {
    hide Declared, Gives, ScopeOf, MadeBy;
    var ids := rest + [i];
    assert forall j :: 0 <= j < |rest| ==> ids[j] == rest[j];
    if n :| 0 <= n < |ids| && Gives(f, ids[n], k) { assert rest[n] == ids[n]; }
    if e.Some? { MadeByLess(f, rest, i, k, e.value); }
  }

  lemma MadeByLess(f: Facts, rest: seq<Identifier>, i: Identifier, k: Key, e: Entry)
    requires Declared(f).Some? && !Gives(f, i, k) && MadeBy(f, rest, k, e)
    ensures MadeBy(f, rest + [i], k, e)
  {
    hide Declared, Gives, ScopeOf;
    var ids := rest + [i];
    assert forall j :: 0 <= j < |rest| ==> ids[j] == rest[j];
    forall source ensures GivenIn(f, ids, k, source) <==> GivenIn(f, rest, k, source) {
      if n :| 0 <= n < |ids| && Gives(f, ids[n], k) && ids[n].source == source { assert rest[n] == ids[n]; }
    }
  }

  lemma OneMoreGives(f: Facts, rest: seq<Identifier>, i: Identifier, k: Key, before: Option<Entry>, e: Entry)
    requires Declared(f).Some? && Gives(f, i, k) && EntryIs(f, rest, k, before)
    requires before.Some? ==> e == before.value.(fields := before.value.fields + {i.source})
    requires before.None? ==> e == Entry(f.connector, f.surface, ScopeOf(f, i), i.qualified.Some?, {i.source})
    ensures EntryIs(f, rest + [i], k, Some(e))
  {
    hide Declared, Gives, ScopeOf;
    var ids := rest + [i];
    assert ids[|rest|] == i && forall j :: 0 <= j < |rest| ==> ids[j] == rest[j];
    forall source ensures source in e.fields <==> GivenIn(f, ids, k, source) {
      if n :| 0 <= n < |ids| && Gives(f, ids[n], k) && ids[n].source == source {
        if n < |rest| { assert rest[n] == ids[n]; }
      }
      if before.Some? && source in before.value.fields {
        var n :| 0 <= n < |rest| && Gives(f, rest[n], k) && rest[n].source == source;
        assert ids[n] == rest[n];
      }
    }
    if before.Some? {
      var n :| 0 <= n < |rest| && Gives(f, rest[n], k) && (forall j :: 0 <= j < n ==> !Gives(f, rest[j], k))
               && before.value.scope == ScopeOf(f, rest[n]) && before.value.global == rest[n].qualified.Some?;
      assert ids[n] == rest[n];
    }
  }

  // A declared scope that cannot be compared, as a redacted tenant. An account is one for some connectors only, and not if
  // the record is not attributed to it.
  predicate UnusableScope(f: Facts) {
    || f.scopes.tenant.Unusable? || f.scopes.tenantId.Unusable? || f.scopes.workspace.Unusable? || f.scopes.workspaceId.Unusable?
    || (f.scopes.account.Unusable? && f.scopes.attributed
        && f.connector in ["identity.entra", "saas.microsoft-teams", "cloud.aws", "cloud.azure", "cloud.gcp"])
  }

  lemma UnusableIsNotComparable(f: Facts)
    ensures Comparable(f) <==> !UnusableScope(f)
  {
  }

  /** A finding uses an identifier key exactly when its declared scope is usable and one of its identifiers gives that key. */
  lemma IdentifierKeyMeans(f: Facts, k: Key)
    ensures OwnEntry(f, Identifiers, k).Some? <==>
            Declared(f).Some? && !UnusableScope(f) && exists n :: 0 <= n < |f.identifiers| && Gives(f, f.identifiers[n], k)
    ensures OwnEntry(f, Identifiers, k).Some? ==> MadeBy(f, f.identifiers, k, OwnEntry(f, Identifiers, k).value)
  {
    hide Declared, Gives, Comparable, UnusableScope, IdentifierUses, NameUses, MadeBy;
    UnusableIsNotComparable(f);
    if Declared(f).Some? && Comparable(f) { IdentifierEntry(f, f.identifiers, k); }
  }

  // Name n of f is compared under the key k.
  predicate NameGives(n: Name, k: Key) {
    n.normalised.Some? && k == ("name", n.normalised.value)
  }

  ghost predicate NamedIn(names: seq<Name>, k: Key, source: string) {
    exists n :: n in names && NameGives(n, k) && n.source == source
  }

  // e is what the names of f make of key k.
  ghost predicate NamedBy(f: Facts, names: seq<Name>, k: Key, e: Option<Entry>)
    requires Declared(f).Some?
  {
    && (e.Some? <==> exists n :: n in names && NameGives(n, k))
    && (e.Some? ==>
          && e.value == Entry(f.connector, f.surface, Declared(f).value, false, e.value.fields)
          && forall source :: source in e.value.fields <==> NamedIn(names, k, source))
  }

  lemma OneMoreName(f: Facts, rest: seq<Name>, x: Name, k: Key, before: Option<Entry>, e: Option<Entry>)
    requires Declared(f).Some? && NamedBy(f, rest, k, before)
    requires e == if !NameGives(x, k) then before
                  else if before.Some? then Some(before.value.(fields := before.value.fields + {x.source}))
                  else Some(Entry(f.connector, f.surface, Declared(f).value, false, {x.source}))
    ensures NamedBy(f, rest + [x], k, e)
  {
    hide Declared, NameGives;
    assert forall y :: y in rest + [x] <==> y in rest || y == x;
    forall source ensures NamedIn(rest + [x], k, source) <==> NamedIn(rest, k, source) || (NameGives(x, k) && x.source == source) { }
    hide NamedIn;
    if before.None? { forall source ensures !NamedIn(rest, k, source) { NothingNamed(rest, k, source); } }
  }

  lemma NothingNamed(names: seq<Name>, k: Key, source: string)
    requires forall n :: n in names ==> !NameGives(n, k)
    ensures !NamedIn(names, k, source)
  {
  }

  lemma {:induction false} NameEntry(f: Facts, names: seq<Name>, k: Key)
    requires Declared(f).Some?
    ensures NamedBy(f, names, k, Own(f, NameUses(f, names), k))
    decreases |names|
  {
    if names == [] {
      assert NameUses(f, names) == [];
    } else {
      var n := |names| - 1;
      var rest, x := names[..n], names[n];
      assert names == rest + [x];
      NameEntry(f, rest, k);
      var before := NameUses(f, rest);
      hide Declared, NamedBy;
      if x.normalised.Some? {
        var u := Use("name", x.normalised.value, x.source, Declared(f).value, false);
        assert NameUses(f, names) == before + [u];
        OwnMore(f, before, u, k);
      } else {
        assert NameUses(f, names) == before + [];
        assert before + [] == before;
      }
      hide Own, NameUses;
      OneMoreName(f, rest, x, k, Own(f, before, k), Own(f, NameUses(f, names), k));
    }
  }

  /** A finding uses a name key exactly when its declared scope is not contradictory and one of its names gives that key. */
  lemma NameKeyMeans(f: Facts, k: Key)
    ensures OwnEntry(f, Names, k).Some? <==> Declared(f).Some? && exists n :: n in f.names && NameGives(n, k)
    ensures OwnEntry(f, Names, k).Some? ==> NamedBy(f, f.names, k, OwnEntry(f, Names, k))
  {
    hide Declared, NameGives, Comparable, IdentifierUses, NameUses, NamedIn;
    if Declared(f).Some? {
      NameEntry(f, f.names, k);
      assert OwnEntry(f, Names, k) == Own(f, NameUses(f, f.names), k);
    } else {
      assert OwnEntry(f, Names, k) == Own(f, [], k) == None;
    }
  }

  // ---------------------------------------------------------------- what a link rests on

  // Different connectors or surfaces, and no scope on which the two entries disagree.
  ghost predicate Compatible(u: Entry, v: Entry) {
    && (u.connector != v.connector || u.surface != v.surface)
    && forall s :: s in u.scope && s in v.scope ==> u.scope[s] == v.scope[s]
  }

  // Both spell a qualified reference, or some scope is known of both: for an Entra application id, the tenant.
  ghost predicate SharedScope(kind: string, u: Entry, v: Entry) {
    || (u.global && v.global)
    || exists s :: s in u.scope && s in v.scope && (kind == "entra-application-id" ==> s == "entra-tenant")
  }

  lemma ConditionsAre(kind: string, u: Entry, v: Entry)
    ensures Linkable(u, v) <==> Compatible(u, v)
    ensures ExactScope(kind, u, v) <==> SharedScope(kind, u, v)
  {
  }

  // What the match m records: the fields of two entries that agree, and the scopes known of either.
  ghost predicate Joins(m: Match, u: Entry, v: Entry) {
    && Compatible(u, v)
    && (forall i :: i in m.sourceFields <==> i in u.fields) && (forall i :: i in m.targetFields <==> i in v.fields)
    && (forall s :: s in m.scope <==> s in u.scope || s in v.scope)
    && (forall s :: s in u.scope ==> m.scope[s] == u.scope[s]) && (forall s :: s in v.scope ==> m.scope[s] == v.scope[s])
  }

  lemma MatchJoins(m: Match, u: Entry, v: Entry)
    requires Compatible(u, v) && m == Match(m.kind, Sorted(u.fields), Sorted(v.fields), u.scope + v.scope)
    ensures Joins(m, u, v)
  {
  }

  // The match m, read from a to b, joins the entries of two findings for one key.
  ghost predicate RecordsMatch(fs: seq<Facts>, pass: Pass, a: string, b: string, m: Match, x: Facts, y: Facts, key: string) {
    && x in fs && y in fs && x.id == a && y.id == b && a != b
    && OwnEntry(x, pass, (m.kind, key)).Some? && OwnEntry(y, pass, (m.kind, key)).Some?
    && Joins(m, OwnEntry(x, pass, (m.kind, key)).value, OwnEntry(y, pass, (m.kind, key)).value)
  }

  lemma EvidenceRecords(fs: seq<Facts>, pass: Pass, a: string, b: string, m: Match, u: Entry, v: Entry)
    returns (x: Facts, y: Facts, key: string)
    requires Evidence(fs, pass, a, b, m, u, v)
    ensures RecordsMatch(fs, pass, a, b, m, x, y, key)
    ensures OwnEntry(x, pass, (m.kind, key)) == Some(u) && OwnEntry(y, pass, (m.kind, key)) == Some(v)
  {
    hide Linkable, Compatible, Joins, ExactScope, SharedScope, Own, Uses;
    ConditionsAre(m.kind, u, v);
    MatchJoins(m, u, v);
    key :| Contributes(fs, pass, (m.kind, key), a, u) && Contributes(fs, pass, (m.kind, key), b, v);
    x :| x in fs && x.id == a && Own(x, Uses(x, pass), (m.kind, key)) == Some(u);
    y :| y in fs && y.id == b && Own(y, Uses(y, pass), (m.kind, key)) == Some(v);
  }

  /** An exact match joins two findings that use one identifier in agreeing scopes, and either both spell it as a qualified
      reference or a scope of that identifier's kind is known of both. */
  lemma ExactMatchMeans(fs: seq<Facts>, a: string, b: string, m: Match) returns (x: Facts, y: Facts, key: string)
    requires UniqueIds(fs) && m in MatchesOf(ExactTable(fs), a, b)
    ensures RecordsMatch(fs, Identifiers, a, b, m, x, y, key)
    ensures SharedScope(m.kind, OwnEntry(x, Identifiers, (m.kind, key)).value, OwnEntry(y, Identifiers, (m.kind, key)).value)
  {
    hide ExactTable, Evidence, ExactScope, SharedScope, RecordsMatch, UniqueIds;
    ExactMatchIsVerified(fs, a, b, m);
    var u, v :| Evidence(fs, Identifiers, a, b, m, u, v) && ExactScope(m.kind, u, v) && ExactScope(m.kind, v, u);
    x, y, key := EvidenceRecords(fs, Identifiers, a, b, m, u, v);
    ConditionsAre(m.kind, u, v);
    assert OwnEntry(x, Identifiers, (m.kind, key)).Some?;
  }

  /** A candidate match joins two findings that use one identifier whose scope is not known of both, or one name. */
  lemma CandidateMatchMeans(fs: seq<Facts>, a: string, b: string, m: Match) returns (pass: Pass, x: Facts, y: Facts, key: string)
    requires UniqueIds(fs) && m in MatchesOf(FuzzyTable(fs), a, b)
    ensures RecordsMatch(fs, pass, a, b, m, x, y, key)
    ensures pass.Identifiers? ==>
              !SharedScope(m.kind, OwnEntry(x, pass, (m.kind, key)).value, OwnEntry(y, pass, (m.kind, key)).value)
  {
    hide FuzzyTable, Evidence, ExactScope, SharedScope, RecordsMatch, UniqueIds;
    FuzzyMatchIsUnverified(fs, a, b, m);
    var u, v :| (Evidence(fs, Identifiers, a, b, m, u, v) && !ExactScope(m.kind, u, v)) || Evidence(fs, Names, a, b, m, u, v);
    pass := if Evidence(fs, Identifiers, a, b, m, u, v) && !ExactScope(m.kind, u, v) then Identifiers else Names;
    x, y, key := EvidenceRecords(fs, pass, a, b, m, u, v);
    ConditionsAre(m.kind, u, v);
    assert OwnEntry(x, pass, (m.kind, key)).Some?;
  }

  /** One-sided scope does not make a local identifier exact: without qualified references, two findings whose declared
      scopes have no key in common are never linked exactly. */
  lemma NoSharedScopeNoExactLink(fs: seq<Facts>, x: Facts, y: Facts)
    requires UniqueIds(fs) && x in fs && y in fs
    requires forall i :: i in x.identifiers || i in y.identifiers ==> i.qualified.None?
    requires Declared(x).Some? && Declared(y).Some? ==> forall s :: !(s in Declared(x).value && s in Declared(y).value)
    ensures y.id !in PeersOf(ExactTable(fs), x.id)
  {
    TablesAreGood(fs);
    hide Good, ExactTable, PeersOf, MatchesOf, Declared, OwnEntry, UniqueIds;
    if y.id in PeersOf(ExactTable(fs), x.id) {
      var m := SomeMatch(ExactTable(fs), x.id, y.id);
      var p, q, key := ExactMatchMeans(fs, x.id, y.id, m);
      OwnerIsUnique(fs, x, p);
      OwnerIsUnique(fs, y, q);
      LocalEntry(x, Identifiers, (m.kind, key));
      LocalEntry(y, Identifiers, (m.kind, key));
    }
  }

  /** A finding whose declared scope cannot be compared has no exact link, and is a candidate by its name only. */
  lemma UnusableScopeLinksByName(fs: seq<Facts>, x: Facts, b: string, m: Match)
    requires UniqueIds(fs) && x in fs && UnusableScope(x)
    ensures m !in MatchesOf(ExactTable(fs), x.id, b)
    ensures m in MatchesOf(FuzzyTable(fs), x.id, b) ==> m.kind == "name"
  {
    hide ExactTable, FuzzyTable, MatchesOf, Declared, OwnEntry, UnusableScope, UniqueIds, Joins, NamedBy, MadeBy;
    if m in MatchesOf(ExactTable(fs), x.id, b) {
      var p, q, key := ExactMatchMeans(fs, x.id, b, m);
      OwnerIsUnique(fs, x, p);
      IdentifierKeyMeans(x, (m.kind, key));
      assert false;
    }
    if m in MatchesOf(FuzzyTable(fs), x.id, b) {
      var pass, p, q, key := CandidateMatchMeans(fs, x.id, b, m);
      OwnerIsUnique(fs, x, p);
      IdentifierKeyMeans(x, (m.kind, key));
      NameKeyMeans(x, (m.kind, key));
      assert pass == Names && OwnEntry(x, Names, (m.kind, key)).Some?;
      var n :| n in x.names && NameGives(n, (m.kind, key));
    }
  }

  lemma SomeMatch(l: Links, a: string, b: string) returns (m: Match)
    requires Good(l) && b in PeersOf(l, a)
    ensures m in MatchesOf(l, a, b)
  {
    assert LinkOk(l, a, b);
    m := MatchesOf(l, a, b)[0];
  }

  /** Conversely, two findings that meet at an identifier are linked exactly when a scope of its kind is known of both, and
      become candidates otherwise, unless one of them has all its peers. */
  lemma MeetingMeans(fs: seq<Facts>, k: Key, x: Facts, y: Facts)
    requires UniqueIds(fs) && x in fs && y in fs && x != y
    requires OwnEntry(x, Identifiers, k).Some? && OwnEntry(y, Identifiers, k).Some? && |UsersOf(fs, Identifiers, k)| <= 25
    requires Compatible(OwnEntry(x, Identifiers, k).value, OwnEntry(y, Identifiers, k).value)
    ensures if SharedScope(k.0, OwnEntry(x, Identifiers, k).value, OwnEntry(y, Identifiers, k).value)
            then LinkedOrFull(ExactTable(fs), x.id, y.id) else LinkedOrFull(FuzzyTable(fs), x.id, y.id)
  {
    hide OwnEntry, UsersOf, Compatible, SharedScope, ExactTable, FuzzyTable, UniqueIds, LinkedOrFull, Linkable, ExactScope;
    ConditionsAre(k.0, OwnEntry(x, Identifiers, k).value, OwnEntry(y, Identifiers, k).value);
    MeetingLinks(fs, k, x, y);
  }
}
