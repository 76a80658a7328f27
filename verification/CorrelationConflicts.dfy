/** Which findings that declare conflicting scopes correlation links all the same. */
module CorrelationConflicts {
  import opened Ordering
  import opened CorrelationKeys
  import opened CorrelationLinks
  import opened Correlation

  // ---------------------------------------------------------------- when declared scopes conflict

  function Either(a: Field, b: Field): Field {
    if a.Usable? then a else b
  }

  predicate Differ(a: Field, b: Field) {
    a.Usable? && b.Usable? && a.text != b.text
  }

  function Tenant(f: Facts): Field {
    Either(f.scopes.tenant, f.scopes.tenantId)
  }

  function Workspace(f: Facts): Field {
    Either(f.scopes.workspace, f.scopes.workspaceId)
  }

  // The scope key k of a declared scope, read off the fields.
  function FieldOf(f: Facts, k: string): Field {
    if k == "tenant" then Tenant(f)
    else if k == "workspace" then Workspace(f)
    else if AccountKey(f.connector) == Some(k) then AccountField(f)
    else Missing
  }

  lemma DeclaredIs(f: Facts)
    ensures Declared(f).Some? <==>
            !Differ(f.scopes.tenant, f.scopes.tenantId) && !Differ(f.scopes.workspace, f.scopes.workspaceId)
    ensures Declared(f).Some? ==>
              forall k :: if FieldOf(f, k).Usable? then k in Declared(f).value && Declared(f).value[k] == FieldOf(f, k).text
                          else k !in Declared(f).value
  {
    assert |"tenant"| == 6 && |"workspace"| == 9 && |ENTRA_TENANT| == 12 && |"aws-account"| == 11;
    assert |"azure-subscription"| == 18 && |"gcp-project"| == 11;
    assert "tenant" != "workspace";
    assert forall c :: AccountKey(c) != Some("tenant");
    assert forall c :: AccountKey(c) != Some("workspace") by { assert "workspace"[0] != "aws-account"[0]; }
  }

  /** Two declared scopes conflict exactly when the findings name different tenants or workspaces, or different accounts
      of one identity namespace. */
  lemma DeclaredConflictIs(x: Facts, y: Facts)
    requires Declared(x).Some? && Declared(y).Some?
    ensures Conflicts(Declared(x).value, Declared(y).value) <==>
            || Differ(Tenant(x), Tenant(y)) || Differ(Workspace(x), Workspace(y))
            || (AccountKey(x.connector) == AccountKey(y.connector) && Differ(AccountField(x), AccountField(y)))
  {
    DeclaredIs(x);
    DeclaredIs(y);
    hide Declared;
    var s, t := Declared(x).value, Declared(y).value;
    assert AccountKey(x.connector) != Some("tenant") && AccountKey(x.connector) != Some("workspace") by { AccountKeyIsOwn(x.connector); }
    if Differ(Tenant(x), Tenant(y)) { assert "tenant" in s && "tenant" in t && s["tenant"] != t["tenant"]; }
    if Differ(Workspace(x), Workspace(y)) { assert "workspace" in s && "workspace" in t && s["workspace"] != t["workspace"]; }
    if AccountKey(x.connector) == AccountKey(y.connector) && Differ(AccountField(x), AccountField(y)) {
      var k := AccountKey(x.connector).value;
      assert k in s && k in t && s[k] != t[k];
    }
    hide AccountKey;
    if Conflicts(s, t) {
      var k :| k in s && k in t && s[k] != t[k];
      assert FieldOf(x, k).Usable? && FieldOf(y, k).Usable?;
    }
  }

  lemma AccountKeyIsOwn(connector: string)
    ensures AccountKey(connector) != Some("tenant") && AccountKey(connector) != Some("workspace")
  {
    assert |"tenant"| == 6 && |"workspace"| == 9 && |ENTRA_TENANT| == 12 && |"aws-account"| == 11;
    assert |"azure-subscription"| == 18 && |"gcp-project"| == 11;
  }

  // ---------------------------------------------------------------- when two findings form a pair

  function OwnEntry(f: Facts, pass: Pass, k: Key): Option<Entry> {
    Own(f, Uses(f, pass), k)
  }

  // The ids of the findings that use a key.
  function UsersOf(fs: seq<Facts>, pass: Pass, k: Key): (r: set<string>)
    ensures forall id :: id in r <==> exists f :: f in fs && f.id == id && OwnEntry(f, pass, k).Some?
  {
    set f | f in fs && OwnEntry(f, pass, k).Some? :: f.id
  }

  // Both findings use the key, at most MAX_GROUP do, and their entries can be linked.
  ghost predicate Meet(fs: seq<Facts>, pass: Pass, k: Key, x: Facts, y: Facts) {
    && OwnEntry(x, pass, k).Some? && OwnEntry(y, pass, k).Some?
    && |UsersOf(fs, pass, k)| <= MAX_GROUP
    && Linkable(OwnEntry(x, pass, k).value, OwnEntry(y, pass, k).value)
  }

  ghost predicate Exactly(pass: Pass, k: Key, x: Facts, y: Facts) {
    && OwnEntry(x, pass, k).Some? && OwnEntry(y, pass, k).Some?
    && ExactScope(k.0, OwnEntry(x, pass, k).value, OwnEntry(y, pass, k).value)
  }

  ghost predicate Qualifies(f: Facts, k: Key) {
    OwnEntry(f, Identifiers, k).Some? && OwnEntry(f, Identifiers, k).value.global
  }

  lemma OwnerIsUnique(fs: seq<Facts>, x: Facts, y: Facts)
    requires UniqueIds(fs) && x in fs && y in fs && x.id == y.id
    ensures x == y
  {
    var i :| 0 <= i < |fs| && fs[i] == x;
    var j :| 0 <= j < |fs| && fs[j] == y;
  }

  lemma MembersAre(fs: seq<Facts>, pass: Pass, k: Key)
    requires UniqueIds(fs)
    ensures k in Grouped(fs, pass) ==> Grouped(fs, pass)[k].Keys == UsersOf(fs, pass, k)
    ensures forall f :: f in fs ==> Lookup(Grouped(fs, pass), k, f.id) == OwnEntry(f, pass, k)
  {
    GroupedIs(fs, pass);
    hide Grouped, Own, Uses, UniqueIds;
    var g := Grouped(fs, pass);
    forall f | f in fs ensures Lookup(g, k, f.id) == OwnEntry(f, pass, k) {
      var e, d := Lookup(g, k, f.id), OwnEntry(f, pass, k);
      if d.Some? { assert Contributes(fs, pass, k, f.id, d.value); }
      if e.Some? {
        assert Contributes(fs, pass, k, f.id, e.value);
        var h :| h in fs && h.id == f.id && Own(h, Uses(h, pass), k) == Some(e.value);
        OwnerIsUnique(fs, f, h);
      }
    }
    if k in g {
      forall id ensures id in g[k] <==> id in UsersOf(fs, pass, k) {
        var e := Lookup(g, k, id);
        assert e.Some? ==> Contributes(fs, pass, k, id, e.value);
      }
    }
  }

  function PairAt(k: Key, x: Facts, y: Facts, u: Entry, v: Entry): Pair {
    Pair(k.0, x.id, y.id, u, v)
  }

  lemma PairInIs(g: Groups, k: Key, p: Pair)
    requires p.kind == k.0 && Less(p.first, p.second)
    ensures PairIn(g, p, k.1) <==>
            && Lookup(g, k, p.first) == Some(p.left) && Lookup(g, k, p.second) == Some(p.right)
            && |g[k].Keys| <= MAX_GROUP && Linkable(p.left, p.right)
  {
    LessIsStrict(p.first, p.second);
    hide Linkable, Less;
    assert k == (p.kind, k.1);
    if k in g && p.first in g[k] && p.second in g[k] {
      assert |g[k]| == |g[k].Keys|;
      SubsetSize({p.first, p.second}, g[k].Keys);
      assert |{p.first, p.second}| == 2;
    }
  }

  /** Two findings meet at a key exactly when their entries for it form a pair. */
  lemma MeetingIsPair(fs: seq<Facts>, pass: Pass, k: Key, x: Facts, y: Facts, p: Pair)
    requires UniqueIds(fs) && x in fs && y in fs && Less(x.id, y.id)
    requires p.first == x.id && p.second == y.id && p.kind == k.0
    ensures PairIn(Grouped(fs, pass), p, k.1) <==>
            Meet(fs, pass, k, x, y) && OwnEntry(x, pass, k) == Some(p.left) && OwnEntry(y, pass, k) == Some(p.right)
  {
    MembersAre(fs, pass, k);
    var g := Grouped(fs, pass);
    assert k !in g ==> Lookup(g, k, x.id) == None;
    hide Grouped, OwnEntry, UsersOf, Less, Linkable, UniqueIds, PairIn, Lookup;
    PairInIs(g, k, p);
  }

  ghost predicate Joins(p: Pair, a: string, b: string) {
    (p.first == a && p.second == b) || (p.first == b && p.second == a)
  }

  ghost predicate Joined(ps: seq<Pair>, a: string, b: string) {
    exists p :: p in ps && Joins(p, a, b)
  }

  lemma MeetSwaps(fs: seq<Facts>, pass: Pass, k: Key, x: Facts, y: Facts)
    requires Meet(fs, pass, k, x, y)
    ensures Meet(fs, pass, k, y, x) && (Exactly(pass, k, x, y) <==> Exactly(pass, k, y, x))
  {
    hide OwnEntry, UsersOf;
    ScopesCommute(OwnEntry(x, pass, k).value.scope, OwnEntry(y, pass, k).value.scope);
  }

  lemma MeetingJoins(fs: seq<Facts>, pass: Pass, k: Key, x: Facts, y: Facts) returns (p: Pair)
    requires UniqueIds(fs) && x in fs && y in fs && x != y && Meet(fs, pass, k, x, y)
    ensures p in Pairs(Grouped(fs, pass)) && Joins(p, x.id, y.id)
    ensures ExactScope(p.kind, p.left, p.right) <==> Exactly(pass, k, x, y)
  {
    if x.id == y.id { OwnerIsUnique(fs, x, y); }
    LessIsTotal(x.id, y.id);
    MeetSwaps(fs, pass, k, x, y);
    PairsAre(Grouped(fs, pass));
    hide Grouped, OwnEntry, UsersOf, Linkable, ExactScope, Pairs, Less, PairIn, UniqueIds;
    if Less(x.id, y.id) {
      p := PairAt(k, x, y, OwnEntry(x, pass, k).value, OwnEntry(y, pass, k).value);
      MeetingIsPair(fs, pass, k, x, y, p);
    } else {
      p := PairAt(k, y, x, OwnEntry(y, pass, k).value, OwnEntry(x, pass, k).value);
      MeetingIsPair(fs, pass, k, y, x, p);
    }
  }

  lemma PairMeets(fs: seq<Facts>, pass: Pass, p: Pair, x: Facts, y: Facts) returns (k: Key)
    requires UniqueIds(fs) && x in fs && y in fs && p in Pairs(Grouped(fs, pass)) && Joins(p, x.id, y.id)
    ensures Meet(fs, pass, k, x, y)
    ensures ExactScope(p.kind, p.left, p.right) <==> Exactly(pass, k, x, y)
  {
    PairsAre(Grouped(fs, pass));
    hide Grouped, OwnEntry, UsersOf, Linkable, ExactScope, Pairs, Less, UniqueIds;
    var key :| PairIn(Grouped(fs, pass), p, key);
    k := (p.kind, key);
    if p.first == x.id && p.second == y.id {
      MeetingIsPair(fs, pass, k, x, y, p);
    } else {
      MeetingIsPair(fs, pass, k, y, x, p);
      MeetSwaps(fs, pass, k, y, x);
    }
  }

  /** Two findings are paired for an exact link exactly when they meet at an identifier of verified scope, and for a
      candidate link exactly when they meet at another identifier or at a name. */
  lemma PairedWhen(fs: seq<Facts>, x: Facts, y: Facts)
    requires UniqueIds(fs) && x in fs && y in fs && x != y
    ensures Joined(ExactPairs(fs), x.id, y.id) <==>
            exists k :: Meet(fs, Identifiers, k, x, y) && Exactly(Identifiers, k, x, y)
    ensures Joined(FuzzyPairs(fs), x.id, y.id) <==>
            || (exists k :: Meet(fs, Identifiers, k, x, y) && !Exactly(Identifiers, k, x, y))
            || (exists k :: Meet(fs, Names, k, x, y))
  {
    hide Grouped, OwnEntry, UsersOf, Linkable, ExactScope, Pairs, UniqueIds, Exactly, Joins, Meet;
    forall k | Meet(fs, Identifiers, k, x, y)
      ensures Exactly(Identifiers, k, x, y) ==> Joined(ExactPairs(fs), x.id, y.id)
      ensures !Exactly(Identifiers, k, x, y) ==> Joined(FuzzyPairs(fs), x.id, y.id)
    {
      var p := MeetingJoins(fs, Identifiers, k, x, y);
    }
    forall k | Meet(fs, Names, k, x, y) ensures Joined(FuzzyPairs(fs), x.id, y.id) {
      var p := MeetingJoins(fs, Names, k, x, y);
    }
    if Joined(ExactPairs(fs), x.id, y.id) {
      var p :| p in ExactPairs(fs) && Joins(p, x.id, y.id);
      var k := PairMeets(fs, Identifiers, p, x, y);
    }
    if Joined(FuzzyPairs(fs), x.id, y.id) {
      var p :| p in FuzzyPairs(fs) && Joins(p, x.id, y.id);
      if p in Pairs(Grouped(fs, Names)) {
        var k := PairMeets(fs, Names, p, x, y);
      } else {
        var k := PairMeets(fs, Identifiers, p, x, y);
      }
    }
  }

  // ---------------------------------------------------------------- what a declared scope can prevent

  /** Only a qualified identifier brings a scope of its own. */
  lemma {:induction false} LocalKeepsDeclared(f: Facts, uses: seq<Use>, k: Key)
    requires Declared(f).Some? && forall u :: u in uses ==> u.global || u.scope == Declared(f).value
    ensures var e := Own(f, uses, k); e.Some? && !e.value.global ==> e.value.scope == Declared(f).value
    decreases |uses|
  {
    if uses != [] {
      var n := |uses| - 1;
      assert uses == uses[..n] + [uses[n]];
      hide Declared;
      LocalKeepsDeclared(f, uses[..n], k);
      assert uses[n] in uses;
    }
  }

  lemma {:induction false} IdentifierScopes(f: Facts, items: seq<Identifier>)
    requires Declared(f).Some?
    ensures forall u :: u in IdentifierUses(f, items) ==> u.global || u.scope == Declared(f).value
    ensures (forall i :: i in items ==> i.qualified.None?) ==> forall u :: u in IdentifierUses(f, items) ==> !u.global
    decreases |items|
  {
    if items != [] {
      var n := |items| - 1;
      assert items == items[..n] + [items[n]];
      hide Declared;
      IdentifierScopes(f, items[..n]);
    }
  }

  lemma {:induction false} NameScopes(f: Facts, names: seq<Name>)
    requires Declared(f).Some?
    ensures forall u :: u in NameUses(f, names) ==> !u.global && u.scope == Declared(f).value
    decreases |names|
  {
    if names != [] {
      hide Declared;
      NameScopes(f, names[..|names| - 1]);
    }
  }

  lemma {:induction false} LocalUses(f: Facts, uses: seq<Use>, k: Key)
    requires forall u :: u in uses ==> !u.global
    ensures var e := Own(f, uses, k); e.Some? ==> !e.value.global
    decreases |uses|
  {
    if uses != [] {
      var n := |uses| - 1;
      assert uses == uses[..n] + [uses[n]];
      LocalUses(f, uses[..n], k);
      assert uses[n] in uses;
    }
  }

  lemma UsesAre(f: Facts, pass: Pass)
    ensures Declared(f).None? ==> Uses(f, pass) == []
    ensures Declared(f).Some? ==> forall u :: u in Uses(f, pass) ==> u.global || u.scope == Declared(f).value
    ensures pass.Names? || (forall i :: i in f.identifiers ==> i.qualified.None?) ==> forall u :: u in Uses(f, pass) ==> !u.global
  {
    hide Declared, IdentifierUses, NameUses;
    if Declared(f).Some? {
      NameScopes(f, f.names);
      IdentifierScopes(f, f.identifiers);
    }
  }

  lemma LocalEntry(f: Facts, pass: Pass, k: Key)
    requires OwnEntry(f, pass, k).Some?
    ensures Declared(f).Some?
    ensures !OwnEntry(f, pass, k).value.global ==> OwnEntry(f, pass, k).value.scope == Declared(f).value
    ensures pass.Names? || (forall i :: i in f.identifiers ==> i.qualified.None?) ==> !OwnEntry(f, pass, k).value.global
  {
    UsesAre(f, pass);
    assert Uses(f, pass) != [];
    hide Declared, Own, Uses;
    LocalKeepsDeclared(f, Uses(f, pass), k);
    if pass.Names? || (forall i :: i in f.identifiers ==> i.qualified.None?) { LocalUses(f, Uses(f, pass), k); }
  }

  ghost predicate InConflict(x: Facts, y: Facts) {
    Declared(x).Some? && Declared(y).Some? && Conflicts(Declared(x).value, Declared(y).value)
  }

  lemma ConflictNeedsQualified(fs: seq<Facts>, pass: Pass, k: Key, x: Facts, y: Facts)
    requires InConflict(x, y) && Meet(fs, pass, k, x, y)
    ensures pass.Identifiers? && (Qualifies(x, k) || Qualifies(y, k))
  {
    LocalEntry(x, pass, k);
    LocalEntry(y, pass, k);
    hide Declared, OwnEntry, UsersOf;
  }

  /** A conflicting declared scope keeps two findings apart, except where they meet at an identifier that one of them
      spells as a qualified reference. There the declared scopes do not count at all. */
  lemma ConflictingPairsAre(fs: seq<Facts>, x: Facts, y: Facts)
    requires UniqueIds(fs) && x in fs && y in fs && InConflict(x, y)
    ensures Joined(ExactPairs(fs), x.id, y.id) <==>
            exists k :: Meet(fs, Identifiers, k, x, y) && (Qualifies(x, k) || Qualifies(y, k)) && Exactly(Identifiers, k, x, y)
    ensures Joined(FuzzyPairs(fs), x.id, y.id) <==>
            exists k :: Meet(fs, Identifiers, k, x, y) && (Qualifies(x, k) || Qualifies(y, k)) && !Exactly(Identifiers, k, x, y)
  {
    assert x != y;
    PairedWhen(fs, x, y);
    hide Meet, Exactly, Qualifies, InConflict, UniqueIds, ExactPairs, FuzzyPairs;
    forall pass, k | Meet(fs, pass, k, x, y) ensures pass.Identifiers? && (Qualifies(x, k) || Qualifies(y, k)) {
      ConflictNeedsQualified(fs, pass, k, x, y);
    }
  }

  // ---------------------------------------------------------------- from pairs to links

  lemma LinkedAreJoined(ps: seq<Pair>, a: string, b: string)
    requires Proper(ps) && b in PeersOf(AllLinked(map[], ps), a)
    ensures Joined(ps, a, b)
  {
    var l := AllLinked(map[], ps);
    TableIsGood(ps);
    assert LinkOk(l, a, b);
    var m := MatchesOf(l, a, b)[0];
    hide Good, LinkOk, AllLinked, MatchOf, Mirror;
    EveryMatchIsExplained(ps, a, b, m);
    var p :| p in ps && ((p.first == a && p.second == b && m == MatchOf(p))
                         || (p.first == b && p.second == a && m == Mirror(MatchOf(p))));
    assert Joins(p, a, b);
  }

  lemma JoinedAreLinked(ps: seq<Pair>, a: string, b: string)
    requires Proper(ps) && Joined(ps, a, b)
    ensures var l := AllLinked(map[], ps);
            b in PeersOf(l, a) || |PeersOf(l, a)| == MAX_PEERS || |PeersOf(l, b)| == MAX_PEERS
  {
    var l := AllLinked(map[], ps);
    TableIsGood(ps);
    var p :| p in ps && Joins(p, a, b);
    EveryPairIsCovered(ps, p);
    hide AllLinked, MatchOf;
    assert LinkOk(l, p.first, p.second);
  }

  // b is linked to a, or would be if neither had all its peers already.
  ghost predicate LinkedOrFull(l: Links, a: string, b: string) {
    b in PeersOf(l, a) || |PeersOf(l, a)| == MAX_PEERS || |PeersOf(l, b)| == MAX_PEERS
  }

  lemma MeetingLinks(fs: seq<Facts>, k: Key, x: Facts, y: Facts)
    requires UniqueIds(fs) && x in fs && y in fs && x != y && Meet(fs, Identifiers, k, x, y)
    ensures LinkedOrFull(if Exactly(Identifiers, k, x, y) then ExactTable(fs) else FuzzyTable(fs), x.id, y.id)
  {
    PairsAreProper(fs);
    PairedWhen(fs, x, y);
    hide Meet, Exactly, ExactPairs, FuzzyPairs, PeersOf, AllLinked, Proper, Joined, UniqueIds;
    if Exactly(Identifiers, k, x, y) {
      JoinedAreLinked(ExactPairs(fs), x.id, y.id);
    } else {
      JoinedAreLinked(FuzzyPairs(fs), x.id, y.id);
    }
  }

  lemma LinksAreOfPairs(fs: seq<Facts>, a: string, b: string)
    ensures b in PeersOf(ExactTable(fs), a) ==> Joined(ExactPairs(fs), a, b)
    ensures b in PeersOf(FuzzyTable(fs), a) ==> Joined(FuzzyPairs(fs), a, b)
  {
    PairsAreProper(fs);
    hide ExactPairs, FuzzyPairs, PeersOf, AllLinked, Proper, Joined;
    if b in PeersOf(ExactTable(fs), a) { LinkedAreJoined(ExactPairs(fs), a, b); }
    if b in PeersOf(FuzzyTable(fs), a) { LinkedAreJoined(FuzzyPairs(fs), a, b); }
  }

  /** The same of the links themselves: no identifier that a qualified reference shares, no link; and with one, an exact or
      a candidate link unless an end has all its peers. */
  lemma ConflictingFindingsLinkWhen(fs: seq<Facts>, x: Facts, y: Facts)
    requires UniqueIds(fs) && x in fs && y in fs && InConflict(x, y)
    ensures y.id in PeersOf(ExactTable(fs), x.id) ==>
              exists k :: Meet(fs, Identifiers, k, x, y) && (Qualifies(x, k) || Qualifies(y, k)) && Exactly(Identifiers, k, x, y)
    ensures y.id in PeersOf(FuzzyTable(fs), x.id) ==>
              exists k :: Meet(fs, Identifiers, k, x, y) && (Qualifies(x, k) || Qualifies(y, k)) && !Exactly(Identifiers, k, x, y)
    ensures forall k :: Meet(fs, Identifiers, k, x, y) ==>
              LinkedOrFull(if Exactly(Identifiers, k, x, y) then ExactTable(fs) else FuzzyTable(fs), x.id, y.id)
  {
    assert x != y;
    hide Meet, Exactly, Qualifies, ExactPairs, FuzzyPairs, PeersOf, Joined, ExactTable, FuzzyTable, UniqueIds, InConflict, LinkedOrFull;
    ConflictingPairsAre(fs, x, y);
    LinksAreOfPairs(fs, x.id, y.id);
    forall k | Meet(fs, Identifiers, k, x, y)
      ensures LinkedOrFull(if Exactly(Identifiers, k, x, y) then ExactTable(fs) else FuzzyTable(fs), x.id, y.id)
    {
      MeetingLinks(fs, k, x, y);
    }
  }

  /** What the documentation of correlate claims holds of findings without qualified identifiers. */
  lemma ConflictPreventsLocalLinks(fs: seq<Facts>, x: Facts, y: Facts)
    requires UniqueIds(fs) && x in fs && y in fs && InConflict(x, y)
    requires forall i :: i in x.identifiers || i in y.identifiers ==> i.qualified.None?
    ensures y.id !in PeersOf(ExactTable(fs), x.id) && y.id !in PeersOf(FuzzyTable(fs), x.id)
  {
    ConflictingFindingsLinkWhen(fs, x, y);
    hide Meet, ExactTable, FuzzyTable, PeersOf, UniqueIds, InConflict, OwnEntry;
    forall k ensures !Qualifies(x, k) && !Qualifies(y, k) {
      if OwnEntry(x, Identifiers, k).Some? { LocalEntry(x, Identifiers, k); }
      if OwnEntry(y, Identifiers, k).Some? { LocalEntry(y, Identifiers, k); }
    }
  }

  // ---------------------------------------------------------------- such a link exists

  const BOT := "/subscriptions/s/resourcegroups/g/providers/p/botservices/b"
  const BOT_KEY := ("resource:azure-id", BOT)
  const BOT_SCOPE: ScopeMap := map["account" := "s", "provider" := "azure"]

  // A finding of a Microsoft tenant that names the bot in its resource_id field.
  function BotUser(id: string, connector: string, surface: string, tenant: string): Facts {
    Facts(id, connector, surface, Scopes(Usable(tenant), true, Missing, Missing, Missing, Missing),
          [Identifier("metadata.resource_id", "metadata.resource_id", Some(BOT), true,
                      Some(Qualified(BOT_KEY.0, BOT, BOT_SCOPE)), false)], [])
  }

  const BOT_USE := Use(BOT_KEY.0, BOT, "metadata.resource_id", BOT_SCOPE, true)

  lemma BotUserUses(f: Facts, id: string, connector: string, surface: string, tenant: string)
    requires AccountKey(connector).Some? && surface != CODE && f == BotUser(id, connector, surface, tenant)
    ensures Declared(f) == Some(map[AccountKey(connector).value := tenant])
    ensures Uses(f, Identifiers) == [BOT_USE]
  {
    hide AccountKey;
    assert Declared(f) == Some(map[AccountKey(connector).value := tenant]);
    hide Declared;
    OneIdentifier(f, f.identifiers[0]);
  }

  lemma OneIdentifier(f: Facts, i: Identifier)
    requires Declared(f).Some? && Comparable(f) && f.identifiers == [i]
    ensures Uses(f, Identifiers) == IdentifierUse(f, i)
  {
    hide Declared, IdentifierUse;
    assert [i][..0] == [];
    assert IdentifierUses(f, []) == [];
    assert IdentifierUses(f, [i]) == IdentifierUses(f, [i][..0]) + IdentifierUse(f, i);
  }

  lemma OneUse(f: Facts, u: Use)
    ensures Own(f, [u], (u.kind, u.key)) == Some(Entry(f.connector, f.surface, u.scope, u.global, {u.source}))
  {
    assert [u][..0] == [];
    assert Own(f, [], (u.kind, u.key)) == None;
  }

  lemma BotUserEntry(f: Facts, id: string, connector: string, surface: string, tenant: string)
    requires AccountKey(connector).Some? && surface != CODE && f == BotUser(id, connector, surface, tenant)
    ensures OwnEntry(f, Identifiers, BOT_KEY) == Some(Entry(connector, surface, BOT_SCOPE, true, {"metadata.resource_id"}))
    ensures Declared(f) == Some(map[AccountKey(connector).value := tenant])
  {
    hide AccountKey, Declared, Uses, Own;
    BotUserUses(f, id, connector, surface, tenant);
    OneUse(f, BOT_USE);
  }

  lemma BotUsersMeet(fs: seq<Facts>, x: Facts, y: Facts)
    requires x == BotUser("a", "identity.entra", "identity", "1") && y == BotUser("b", "saas.microsoft-teams", "saas", "2")
    requires fs == [x, y]
    ensures InConflict(x, y) && Meet(fs, Identifiers, BOT_KEY, x, y) && Exactly(Identifiers, BOT_KEY, x, y)
  {
    assert |"saas"| == |CODE| && "saas"[0] != CODE[0] && |"identity"| != |CODE|;
    assert |"identity"| != |"saas"|;
    var k, left, right := ENTRA_TENANT, "1", "2";
    assert AccountKey("identity.entra") == Some(k) && AccountKey("saas.microsoft-teams") == Some(k);
    assert left[0] != right[0];
    BotUserEntry(x, "a", "identity.entra", "identity", left);
    BotUserEntry(y, "b", "saas.microsoft-teams", "saas", right);
    hide BotUser, Declared, OwnEntry, AccountKey, UsersOf;
    assert Declared(x).value[k] == left && Declared(y).value[k] == right;
    FewUsers(fs, x, y, UsersOf(fs, Identifiers, BOT_KEY));
  }

  /** Two findings of different tenants are linked because both name one bot by its full resource id. */
  lemma DeclaredConflictStillLinks()
    ensures var x, y := BotUser("a", "identity.entra", "identity", "1"), BotUser("b", "saas.microsoft-teams", "saas", "2");
            UniqueIds([x, y]) && InConflict(x, y) && "b" in PeersOf(ExactTable([x, y]), "a")
  {
    var x, y := BotUser("a", "identity.entra", "identity", "1"), BotUser("b", "saas.microsoft-teams", "saas", "2");
    var fs := [x, y];
    assert "a"[0] != "b"[0] && x.id == "a" && y.id == "b";
    hide BotUser, InConflict, Meet, Exactly, ExactTable, FuzzyTable, PeersOf;
    BotUsersMeet(fs, x, y);
    ConflictingFindingsLinkWhen(fs, x, y);
    FewPeers(fs, x, y, "a");
    FewPeers(fs, x, y, "b");
  }

  lemma FewUsers(fs: seq<Facts>, x: Facts, y: Facts, ids: set<string>)
    requires fs == [x, y] && forall id :: id in ids ==> exists f :: f in fs && f.id == id
    ensures |ids| <= 2
  {
    assert ids <= {x.id, y.id};
    SubsetSize(ids, {x.id, y.id});
  }

  lemma FewPeers(fs: seq<Facts>, x: Facts, y: Facts, a: string)
    requires fs == [x, y] && UniqueIds(fs)
    ensures |PeersOf(ExactTable(fs), a)| < MAX_PEERS
  {
    var ids := PeersOf(ExactTable(fs), a).Keys;
    assert |ids| == |PeersOf(ExactTable(fs), a)|;
    hide ExactTable, PeersOf, UniqueIds;
    forall b | b in ids ensures exists f :: f in fs && f.id == b { PeerIsFinding(fs, a, b); }
    FewUsers(fs, x, y, ids);
  }

  lemma PeerIsFinding(fs: seq<Facts>, a: string, b: string)
    requires UniqueIds(fs) && b in PeersOf(ExactTable(fs), a)
    ensures exists f :: f in fs && f.id == b
  {
    PairsAreProper(fs);
    hide Grouped, Pairs, PeersOf, AllLinked, Proper, UniqueIds, Own, Uses, Less, Linkable;
    LinkedAreJoined(ExactPairs(fs), a, b);
    var p :| p in ExactPairs(fs) && Joins(p, a, b);
    PairsAre(Grouped(fs, Identifiers));
    GroupedIs(fs, Identifiers);
    var key :| PairIn(Grouped(fs, Identifiers), p, key);
    var g := Grouped(fs, Identifiers);
    assert Lookup(g, (p.kind, key), p.first) == Some(p.left) && Lookup(g, (p.kind, key), p.second) == Some(p.right);
  }
}
