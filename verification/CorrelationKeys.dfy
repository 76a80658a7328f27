/** Grouping findings by shared identifier or name before they are linked (_correlation_keys, _conflicts, _exact_scope and
    _pairs in shadowscan/correlation.py). Parsing an identifier or a name is not part of this model: each one arrives with
    what the parser makes of it. */
module CorrelationKeys {
  import opened Ordering

  datatype Option<T> = None | Some(value: T)

  type ScopeMap = map<string, string>

  // A fully qualified reference names its own scope.
  datatype Qualified = Qualified(kind: string, key: string, scope: ScopeMap)

  // An identifier field: its usable text, whether it is spelled as a qualified reference, what it then refers to, and
  // whether a code finding's value is really a repository path.
  datatype Identifier = Identifier(
    source: string, localKind: string, value: Option<string>, prefixed: bool, qualified: Option<Qualified>, isPath: bool)

  datatype Name = Name(source: string, normalised: Option<string>)

  // A scope field: missing, present but unusable (redacted, padded, a wildcard), or a text that can be compared.
  datatype Field = Missing | Unusable | Usable(text: string)

  datatype Scopes = Scopes(
    account: Field, attributed: bool, tenant: Field, tenantId: Field, workspace: Field, workspaceId: Field)

  datatype Facts = Facts(
    id: string, connector: string, surface: string, scopes: Scopes, identifiers: seq<Identifier>, names: seq<Name>)

  datatype Use = Use(kind: string, key: string, source: string, scope: ScopeMap, global: bool)

  datatype Entry = Entry(connector: string, surface: string, scope: ScopeMap, global: bool, fields: set<string>)

  type Key = (string, string)
  type Groups = map<Key, map<string, Entry>>

  const CODE := "code"
  const GCP_NAME := "resource:gcp-name"
  const ENTRA := "entra-application-id"
  const ENTRA_TENANT := "entra-tenant"
  const MAX_GROUP := 25

  // ---------------------------------------------------------------- the scope a finding declares

  // What an account means, for the connectors that document it as an identity namespace.
  function AccountKey(connector: string): Option<string> {
    if connector == "identity.entra" || connector == "saas.microsoft-teams" then Some(ENTRA_TENANT)
    else if connector == "cloud.aws" then Some("aws-account")
    else if connector == "cloud.azure" then Some("azure-subscription")
    else if connector == "cloud.gcp" then Some("gcp-project")
    else None
  }

  // The account as far as it is an identity scope.
  function AccountField(f: Facts): Field {
    if AccountKey(f.connector).Some? && f.scopes.attributed then f.scopes.account else Missing
  }

  function Noted(scope: Option<ScopeMap>, key: string, field: Field): Option<ScopeMap> {
    if scope.None? || !field.Usable? then scope
    else if key in scope.value && scope.value[key] != field.text then None
    else Some(scope.value[key := field.text])
  }

  /** The declared scope, or None when two fields give one scope different values. */
  function Declared(f: Facts): Option<ScopeMap> {
    var account := AccountField(f);
    var s := if account.Usable? then Some(map[AccountKey(f.connector).value := account.text]) else Some(map[]);
    Noted(Noted(Noted(Noted(s, "tenant", f.scopes.tenant), "tenant", f.scopes.tenantId),
                "workspace", f.scopes.workspace), "workspace", f.scopes.workspaceId)
  }

  predicate Comparable(f: Facts) {
    && !AccountField(f).Unusable? && !f.scopes.tenant.Unusable? && !f.scopes.tenantId.Unusable?
    && !f.scopes.workspace.Unusable? && !f.scopes.workspaceId.Unusable?
  }

  // ---------------------------------------------------------------- what one finding contributes

  function IdentifierUse(f: Facts, i: Identifier): seq<Use>
    requires Declared(f).Some?
  {
    if i.value.None? then []
    else if i.qualified.None? then
      if i.prefixed then [] else [Use(i.localKind, i.value.value, i.source, Declared(f).value, false)]
    else
      var q := i.qualified.value;
      if f.surface == CODE && q.kind == GCP_NAME && i.isPath then []
      else [Use(q.kind, q.key, i.source, q.scope, true)]
  }

  function IdentifierUses(f: Facts, items: seq<Identifier>): seq<Use>
    requires Declared(f).Some?
  {
    if items == [] then []
    else IdentifierUses(f, items[..|items| - 1]) + IdentifierUse(f, items[|items| - 1])
  }

  function NameUses(f: Facts, names: seq<Name>): seq<Use>
    requires Declared(f).Some?
  {
    if names == [] then []
    else
      var n := names[|names| - 1];
      NameUses(f, names[..|names| - 1])
      + (if n.normalised.Some? then [Use("name", n.normalised.value, n.source, Declared(f).value, false)] else [])
  }

  // The two passes: identifiers, then names.
  datatype Pass = Identifiers | Names

  function Uses(f: Facts, pass: Pass): seq<Use> {
    if Declared(f).None? then []
    else if pass.Names? then NameUses(f, f.names)
    else if Comparable(f) then IdentifierUses(f, f.identifiers) else []
  }

  // ---------------------------------------------------------------- groups

  function Added(g: Groups, f: Facts, u: Use): Groups {
    var k := (u.kind, u.key);
    var group := if k in g then g[k] else map[];
    var entry := if f.id in group then group[f.id] else Entry(f.connector, f.surface, u.scope, u.global, {});
    g[k := group[f.id := entry.(fields := entry.fields + {u.source})]]
  }

  function AddedAll(g: Groups, f: Facts, uses: seq<Use>): Groups {
    if uses == [] then g else Added(AddedAll(g, f, uses[..|uses| - 1]), f, uses[|uses| - 1])
  }

  function Grouped(fs: seq<Facts>, pass: Pass): Groups {
    if fs == [] then map[]
    else
      var f := fs[|fs| - 1];
      AddedAll(Grouped(fs[..|fs| - 1], pass), f, Uses(f, pass))
  }

  method Collect(fs: seq<Facts>, pass: Pass) returns (g: Groups)
    ensures g == Grouped(fs, pass)
  {
    g := map[];
    for n := 0 to |fs|
      invariant g == Grouped(fs[..n], pass)
    {
      var f := fs[n];
      var uses := Uses(f, pass);
      ghost var before := g;
      for m := 0 to |uses|
        invariant g == AddedAll(before, f, uses[..m])
      {
        g := Added(g, f, uses[m]);
        assert uses[..m + 1][..m] == uses[..m];
      }
      assert uses[..|uses|] == uses;
      assert fs[..n + 1][..n] == fs[..n];
    }
    assert fs[..|fs|] == fs;
  }

  // ---------------------------------------------------------------- a group entry depends on its finding alone

  ghost predicate UniqueIds(fs: seq<Facts>) {
    forall i, j :: 0 <= i < j < |fs| ==> fs[i].id != fs[j].id
  }

  function Lookup(g: Groups, k: Key, id: string): Option<Entry> {
    if k in g && id in g[k] then Some(g[k][id]) else None
  }

  // The entry a finding makes for one key: the scope of its first use and the fields of all.
  function Own(f: Facts, uses: seq<Use>, k: Key): Option<Entry> {
    if uses == [] then None
    else
      var rest := Own(f, uses[..|uses| - 1], k);
      var u := uses[|uses| - 1];
      if (u.kind, u.key) != k then rest
      else if rest.Some? then Some(rest.value.(fields := rest.value.fields + {u.source}))
      else Some(Entry(f.connector, f.surface, u.scope, u.global, {u.source}))
  }

  lemma {:induction false} AddedAllIs(g: Groups, f: Facts, uses: seq<Use>)
    requires forall k :: Lookup(g, k, f.id) == None
    requires forall k :: k in g ==> g[k] != map[]
    ensures forall k, id :: Lookup(AddedAll(g, f, uses), k, id) == if id == f.id then Own(f, uses, k) else Lookup(g, k, id)
    ensures forall k :: k in AddedAll(g, f, uses) ==> AddedAll(g, f, uses)[k] != map[]
    decreases |uses|
  {
    if uses != [] {
      AddedAllIs(g, f, uses[..|uses| - 1]);
      AddedIs(AddedAll(g, f, uses[..|uses| - 1]), f, uses[|uses| - 1]);
    }
  }

  lemma AddedIs(g: Groups, f: Facts, u: Use)
    ensures forall k, id :: Lookup(Added(g, f, u), k, id) ==
                            if id != f.id || (u.kind, u.key) != k then Lookup(g, k, id)
                            else if Lookup(g, k, id).Some?
                                 then Some(Lookup(g, k, id).value.(fields := Lookup(g, k, id).value.fields + {u.source}))
                                 else Some(Entry(f.connector, f.surface, u.scope, u.global, {u.source}))
    ensures (forall k :: k in g ==> g[k] != map[]) ==> forall k :: k in Added(g, f, u) ==> Added(g, f, u)[k] != map[]
  {
    var key, h := (u.kind, u.key), Added(g, f, u);
    assert f.id in h[key];
    var none: set<string> := {};
    assert none + {u.source} == {u.source};
    if forall k :: k in g ==> g[k] != map[] {
      forall k | k in h ensures h[k] != map[] {
        if k != key { assert h[k] == g[k]; }
      }
    }
  }

  ghost predicate Contributes(fs: seq<Facts>, pass: Pass, k: Key, id: string, entry: Entry) {
    exists f :: f in fs && f.id == id && Own(f, Uses(f, pass), k) == Some(entry)
  }

  /** With unique ids, the entry of a finding in a group is what that finding alone contributes. */
  lemma {:induction false} GroupedIs(fs: seq<Facts>, pass: Pass)
    requires UniqueIds(fs)
    ensures forall k, id, entry :: Lookup(Grouped(fs, pass), k, id) == Some(entry) <==> Contributes(fs, pass, k, id, entry)
    ensures forall k :: k in Grouped(fs, pass) ==> Grouped(fs, pass)[k] != map[]
    decreases |fs|
  {
    if fs != [] {
      var n := |fs| - 1;
      var rest, f := fs[..n], fs[n];
      GroupedIs(rest, pass);
      var g := Grouped(rest, pass);
      forall x | x in rest ensures x.id != f.id {
        var i :| 0 <= i < n && rest[i] == x;
        assert fs[i].id != fs[n].id;
      }
      forall k ensures Lookup(g, k, f.id) == None {
        var e := Lookup(g, k, f.id);
        assert e == None || Contributes(rest, pass, k, f.id, e.value);
      }
      AddedAllIs(g, f, Uses(f, pass));
      hide Own, Uses, Lookup, AddedAll;
      forall k, id, entry
        ensures Lookup(Grouped(fs, pass), k, id) == Some(entry) <==> Contributes(fs, pass, k, id, entry)
      {
        ContributesOneMore(rest, f, pass, k, id, entry);
        assert fs == rest + [f];
      }
    }
  }

  lemma ContributesOneMore(rest: seq<Facts>, f: Facts, pass: Pass, k: Key, id: string, entry: Entry)
    ensures Contributes(rest + [f], pass, k, id, entry) <==>
            Contributes(rest, pass, k, id, entry) || (f.id == id && Own(f, Uses(f, pass), k) == Some(entry))
  {
    forall x ensures x in rest + [f] <==> x in rest || x == f { }
  }

  /** The groups do not depend on the order of the findings. */
  lemma GroupedIgnoresOrder(a: seq<Facts>, b: seq<Facts>, pass: Pass)
    requires UniqueIds(a) && UniqueIds(b) && forall f :: f in a <==> f in b
    ensures Grouped(a, pass) == Grouped(b, pass)
  {
    GroupedIs(a, pass);
    GroupedIs(b, pass);
    var x, y := Grouped(a, pass), Grouped(b, pass);
    hide Grouped, Own, Uses, Lookup, UniqueIds;
    forall k, id, entry ensures Contributes(a, pass, k, id, entry) <==> Contributes(b, pass, k, id, entry) { }
    hide Contributes;
    forall k, id ensures Lookup(x, k, id) == Lookup(y, k, id) {
      var e, d := Lookup(x, k, id), Lookup(y, k, id);
      assert e.Some? ==> Lookup(x, k, id) == Some(e.value) && Contributes(b, pass, k, id, e.value);
      assert d.Some? ==> Lookup(y, k, id) == Some(d.value) && Contributes(a, pass, k, id, d.value);
    }
    SameLookups(x, y);
  }

  lemma SameLookups(x: Groups, y: Groups)
    requires forall k, id :: Lookup(x, k, id) == Lookup(y, k, id)
    requires (forall k :: k in x ==> x[k] != map[]) && (forall k :: k in y ==> y[k] != map[])
    ensures x == y
  {
    forall k ensures k in x <==> k in y {
      if k in x { var id :| id in x[k]; assert Lookup(y, k, id).Some?; }
      if k in y { var id :| id in y[k]; assert Lookup(x, k, id).Some?; }
    }
    forall k | k in x ensures x[k] == y[k] {
      forall id ensures id in x[k] <==> id in y[k] { assert Lookup(x, k, id) == Lookup(y, k, id); }
      forall id | id in x[k] ensures x[k][id] == y[k][id] { assert Lookup(x, k, id) == Lookup(y, k, id); }
    }
  }
}
