/** Inventory entries and when one approves a finding (InventoryEntry and Inventory.match in shadowscan/registry.py, _entry
    in shadowscan/registries.py). */
module RegistryEntries {
  import opened CiteMarker
  import opened Glob
  import opened Ordering
  import opened Text

  datatype Option<T> = None | Some(value: T)

  datatype Entry = Entry(
    agentId: string, source: Option<string>, owner: Option<string>, resources: seq<string>,
    surfaces: seq<string>, providers: seq<string>, accounts: seq<string>, regions: seq<string>, discriminators: seq<string>)

  // The outcome of the identity checks, helpers outside this model, and whether the connector left the identity open.
  datatype Checks = Checks(
    resourceUsable: bool, scopeUsable: bool, awsScoped: bool, workspaceScoped: bool, siteScoped: bool, unresolved: bool)

  // What matching reads of a finding: `assurance` is the weak assurance behind a gateway caller name, `named` the entries
  // its names suggest.
  datatype Finding = Finding(
    handle: nat, id: string, resource: string, provider: Option<string>, account: Option<string>, region: Option<string>,
    surface: string, discriminator: string, checks: Checks, assurance: Option<string>, named: seq<string>)

  // A helper outside this model: the canonical origin of an Atlassian site.
  datatype Rules = Rules(origin: string -> Option<string>)

  const ATLASSIAN := "atlassian"
  const NEED_ACCOUNT := {"google-workspace", "atlassian"}

  // ---------------------------------------------------------------- approval of one entry

  predicate AccountMatches(rules: Rules, e: Entry, f: Finding) {
    if f.provider == Some(ATLASSIAN) then
      e.accounts == []
      || (f.account.Some? && rules.origin(f.account.value).Some?
          && exists a :: a in e.accounts && rules.origin(a) == rules.origin(f.account.value))
    else e.accounts == [] || (f.account.Some? && f.account.value in e.accounts)
  }

  predicate ScopeMatches(rules: Rules, e: Entry, f: Finding) {
    && (e.surfaces == [] || f.surface in e.surfaces)
    && (e.providers == [] || (f.provider.Some? && f.provider.value in e.providers))
    && AccountMatches(rules, e, f)
    && (f.provider.Some? && f.provider.value in NEED_ACCOUNT ==> e.accounts != [])
    && (e.regions == [] || (f.region.Some? && f.region.value in e.regions))
    && (e.discriminators == [] || f.discriminator in e.discriminators)
  }

  predicate Approves(rules: Rules, e: Entry, f: Finding) {
    ScopeMatches(rules, e, f) && exists p :: p in e.resources && Matches(f.resource, p)
  }

  // ---------------------------------------------------------------- stripping, as every entry field is

  lemma {:induction false} LiteralPatternSplits(a: string, b: string)
    ensures LiteralPattern(a + b) == LiteralPattern(a) + LiteralPattern(b)
    decreases |a|
  {
    if a == "" {
      assert a + b == b;
    } else {
      assert (a + b)[1..] == a[1..] + b;
      LiteralPatternSplits(a[1..], b);
    }
  }

  lemma {:induction false} StripLeftOfPattern(r: string)
    ensures StripLeft(LiteralPattern(r)) == LiteralPattern(StripLeft(r))
  {
    if r != "" {
      var p := LiteralPattern(r);
      assert p == Escaped(r[0]) + LiteralPattern(r[1..]);
      if Space(r[0]) {
        assert p[0] == r[0] && p[1..] == LiteralPattern(r[1..]);
        StripLeftOfPattern(r[1..]);
      } else {
        assert !Space(p[0]);
      }
    }
  }

  lemma {:induction false} StripRightOfPattern(r: string)
    ensures StripRight(LiteralPattern(r)) == LiteralPattern(StripRight(r))
    decreases |r|
  {
    if r != "" {
      var n := |r| - 1;
      var p, q := LiteralPattern(r), LiteralPattern(r[..n]);
      assert r == r[..n] + [r[n]];
      LiteralPatternSplits(r[..n], [r[n]]);
      assert LiteralPattern([r[n]]) == Escaped(r[n]) by { assert [r[n]][1..] == ""; }
      assert p == q + Escaped(r[n]);
      if Space(r[n]) {
        assert p[|p| - 1] == r[n] && p[..|p| - 1] == q;
        StripRightOfPattern(r[..n]);
      } else {
        assert p[|p| - 1] == Escaped(r[n])[|Escaped(r[n])| - 1];
      }
    }
  }

  /** Stripping an entry's pattern strips the resource it stands for: a padded resource is never approved by accident. */
  lemma StripOfPattern(r: string, s: string)
    ensures Matches(s, Strip(LiteralPattern(r))) <==> s == Strip(r)
  {
    StripLeftOfPattern(r);
    StripRightOfPattern(StripLeft(r));
    LiteralMatchesOnlyItself(Strip(r), s);
  }

  lemma {:induction false} EscapedBracketHasNoLetter(r: string, i: nat)
    requires i < |LiteralPattern(r)| && LiteralPattern(r)[i] == '['
    ensures i + 1 < |LiteralPattern(r)| && LiteralPattern(r)[i + 1] in "*?[]"
  {
    var head, rest := Escaped(r[0]), LiteralPattern(r[1..]);
    assert LiteralPattern(r) == head + rest;
    if i >= |head| {
      EscapedBracketHasNoLetter(r[1..], i - |head|);
    }
  }

  /** An escaped resource never holds a citation marker, so loading it as a pattern is never refused for one. */
  lemma EscapedPatternHasNoMarker(r: string)
    ensures !Found(LiteralPattern(r))
  {
    var p := LiteralPattern(r);
    forall i: nat ensures !MarkerAt(p, i) {
      if StartsWith(p, "[cite", i) {
        assert p[i..i + 5][0] == p[i] && p[i..i + 5][1] == p[i + 1];
        EscapedBracketHasNoLetter(r, i);
      }
    }
    NothingFound(p);
  }

  // ---------------------------------------------------------------- matching

  datatype Decision = Decision(entry: Option<Entry>, reason: Option<string>, suggestions: set<string>, assurance: Option<string>)

  function Approving(rules: Rules, entries: seq<Entry>, f: Finding): (r: seq<Entry>)
    ensures forall e :: e in r <==> e in entries && Approves(rules, e, f)
  {
    if entries == [] then []
    else
      var n := |entries| - 1;
      assert entries == entries[..n] + [entries[n]];
      Approving(rules, entries[..n], f) + (if Approves(rules, entries[n], f) then [entries[n]] else [])
  }

  predicate SameApproval(a: Entry, b: Entry) {
    a.agentId == b.agentId && a.source == b.source
  }

  predicate Represented(r: seq<Entry>, e: Entry) {
    exists x :: x in r && SameApproval(x, e)
  }

  // dict.setdefault by (agent id, source): the first entry of each key, in order.
  function FirstOfEach(entries: seq<Entry>): seq<Entry> {
    if entries == [] then []
    else
      var n := |entries| - 1;
      var rest := FirstOfEach(entries[..n]);
      if Represented(rest, entries[n]) then rest else rest + [entries[n]]
  }

  lemma {:induction false} FirstOfEachIs(entries: seq<Entry>)
    ensures forall e :: e in FirstOfEach(entries) ==> e in entries
    ensures forall e :: e in entries ==> Represented(FirstOfEach(entries), e)
    decreases |entries|
  {
    if entries != [] {
      var n := |entries| - 1;
      FirstOfEachIs(entries[..n]);
      assert entries == entries[..n] + [entries[n]];
      var rest := FirstOfEach(entries[..n]);
      forall e | Represented(rest, e) ensures Represented(rest + [entries[n]], e) {
        var x :| x in rest && SameApproval(x, e);
        assert x in rest + [entries[n]];
      }
      assert entries[n] in rest + [entries[n]];
    }
  }

  // Later entries of a key that is already represented change nothing.
  lemma {:induction false} FirstOfAlike(entries: seq<Entry>)
    requires entries != [] && forall e :: e in entries ==> SameApproval(entries[0], e)
    ensures FirstOfEach(entries) == [entries[0]]
    decreases |entries|
  {
    var n := |entries| - 1;
    if n == 0 {
      assert FirstOfEach(entries[..0]) == [];
    } else {
      assert forall e :: e in entries[..n] ==> e in entries;
      FirstOfAlike(entries[..n]);
      assert entries[..n][0] == entries[0] && entries[n] in entries;
      assert entries[0] in [entries[0]];
    }
  }

  function AgentIds(entries: seq<Entry>): set<string> {
    set e | e in entries :: e.agentId
  }

  function NameHint(f: Finding): Decision {
    if f.named == [] then Decision(None, None, {}, None)
    else Decision(None, Some("name-only-review-required"), (set n | n in f.named), None)
  }

  // The first check that fails says why the identity cannot be matched at all.
  function Guard(c: Checks): Option<string> {
    if !c.resourceUsable then Some("redacted-or-missing-resource-identity")
    else if !c.scopeUsable then Some("redacted-scope-identity")
    else if !c.awsScoped then Some("missing-aws-account-scope")
    else if !c.workspaceScoped then Some("missing-google-workspace-account-scope")
    else if !c.siteScoped then Some("missing-atlassian-account-scope")
    else if c.unresolved then Some("unresolved-resource-identity")
    else None
  }

  predicate PassesAll(c: Checks) {
    c.resourceUsable && c.scopeUsable && c.awsScoped && c.workspaceScoped && c.siteScoped && !c.unresolved
  }

  /** Inventory.match: what it returns and what it writes on the finding. */
  function Decide(rules: Rules, loaded: seq<Entry>, extra: seq<Entry>, f: Finding): Decision {
    if Guard(f.checks).Some? then Decision(None, Guard(f.checks), {}, None)
    else
      var matches := Approving(rules, loaded, f) + FirstOfEach(Approving(rules, extra, f));
      if matches != [] && f.assurance.Some? then
        Decision(None, Some("unverified-gateway-caller-identity"), AgentIds(matches), f.assurance)
      else if |matches| == 1 then Decision(Some(matches[0]), None, {}, None)
      else if |matches| > 1 then Decision(None, Some("ambiguous-resource-approval"), AgentIds(matches), None)
      else NameHint(f)
  }

  method AddExtra(rules: Rules, extra: seq<Entry>, f: Finding) returns (added: seq<Entry>)
    ensures added == FirstOfEach(Approving(rules, extra, f))
  {
    hide Approves, Represented, SameApproval;
    added := [];
    for n := 0 to |extra|
      invariant added == FirstOfEach(Approving(rules, extra[..n], f))
    {
      ghost var approving := Approving(rules, extra[..n], f);
      assert extra[..n + 1][..n] == extra[..n];
      if Approves(rules, extra[n], f) {
        assert (approving + [extra[n]])[..|approving|] == approving;
        if !Represented(added, extra[n]) {
          added := added + [extra[n]];
        }
      } else {
        assert approving + [] == approving;
      }
    }
    assert extra[..|extra|] == extra;
  }

  class MatchState {
    var reason: Option<string>
    var suggestions: set<string>
    var assurance: Option<string>
    var unverified: bool

    constructor ()
      ensures reason == None && suggestions == {} && assurance == None && !unverified
    {
      reason, suggestions, assurance, unverified := None, {}, None, false;
    }

    // clear_match_state: whatever an earlier pass or a report wrote is removed first.
    method Clear()
      modifies this
      ensures reason == None && suggestions == {} && assurance == None && !unverified
    {
      reason, suggestions, assurance, unverified := None, {}, None, false;
    }

    method Match(rules: Rules, loaded: seq<Entry>, extra: seq<Entry>, f: Finding) returns (entry: Option<Entry>)
      modifies this
      ensures var d := Decide(rules, loaded, extra, f);
              entry == d.entry && reason == d.reason && suggestions == d.suggestions && assurance == d.assurance
              && unverified == (d.assurance.Some?)
    {
      hide Approves;
      Clear();
      if !f.checks.resourceUsable {
        reason := Some("redacted-or-missing-resource-identity");
        return None;
      }
      if !f.checks.scopeUsable {
        reason := Some("redacted-scope-identity");
        return None;
      }
      if !f.checks.awsScoped {
        reason := Some("missing-aws-account-scope");
        return None;
      }
      if !f.checks.workspaceScoped {
        reason := Some("missing-google-workspace-account-scope");
        return None;
      }
      if !f.checks.siteScoped {
        reason := Some("missing-atlassian-account-scope");
        return None;
      }
      if f.checks.unresolved {
        reason := Some("unresolved-resource-identity");
        return None;
      }
      var added := AddExtra(rules, extra, f);
      var matches := Approving(rules, loaded, f) + added;
      if matches != [] && f.assurance.Some? {
        suggestions, reason, assurance := AgentIds(matches), Some("unverified-gateway-caller-identity"), f.assurance;
        unverified := true;
        return None;
      }
      if |matches| == 1 {
        return Some(matches[0]);
      }
      if |matches| > 1 {
        suggestions, reason := AgentIds(matches), Some("ambiguous-resource-approval");
        return None;
      }
      if f.named != [] {
        suggestions, reason := (set n | n in f.named), Some("name-only-review-required");
      }
      entry := None;
    }
  }

  // The extra entries that approve the finding are all one approval.
  ghost predicate OneApproval(rules: Rules, extra: seq<Entry>, f: Finding) {
    && (exists e :: e in extra && Approves(rules, e, f))
    && forall a, b :: a in extra && b in extra && Approves(rules, a, f) && Approves(rules, b, f) ==> SameApproval(a, b)
  }

  ghost predicate NoneApproves(rules: Rules, entries: seq<Entry>, f: Finding) {
    forall e :: e in entries ==> !Approves(rules, e, f)
  }

  /** An approval needs a usable identity, an authenticated caller, and agreement: either one loaded entry approves and
      nothing extra does, or no loaded entry does and every extra that does is the same approval. */
  lemma ApprovalIsUnambiguous(rules: Rules, loaded: seq<Entry>, extra: seq<Entry>, f: Finding)
    ensures Decide(rules, loaded, extra, f).entry.Some? <==>
            && PassesAll(f.checks) && f.assurance.None?
            && ((|Approving(rules, loaded, f)| == 1 && NoneApproves(rules, extra, f))
                || (NoneApproves(rules, loaded, f) && OneApproval(rules, extra, f)))
    ensures Decide(rules, loaded, extra, f).entry.Some? ==>
              var e := Decide(rules, loaded, extra, f).entry.value;
              Approves(rules, e, f) && (e in loaded || (e in extra && NoneApproves(rules, loaded, f)))
  {
    hide Approves, FirstOfEach;
    var own, others := Approving(rules, loaded, f), Approving(rules, extra, f);
    var added := FirstOfEach(others);
    NoApproval(rules, loaded, f);
    NoApproval(rules, extra, f);
    SingleApproval(rules, extra, f);
    FirstOfEachIs(others);
    AddedEmpty(others);
    hide Approving, NoneApproves, OneApproval, Represented;
    var matches := own + added;
    if matches != [] { assert matches[0] == if own != [] then own[0] else added[0]; }
    if own != [] { assert own[0] in own; }
    if added != [] { assert added[0] in added; }
  }

  lemma AddedEmpty(entries: seq<Entry>)
    ensures FirstOfEach(entries) == [] <==> entries == []
  {
    FirstOfEachIs(entries);
    hide FirstOfEach;
    if entries != [] { assert entries[0] in entries; }
    if FirstOfEach(entries) != [] { assert FirstOfEach(entries)[0] in FirstOfEach(entries); }
  }

  lemma NoApproval(rules: Rules, entries: seq<Entry>, f: Finding)
    ensures Approving(rules, entries, f) == [] <==> NoneApproves(rules, entries, f)
  {
    hide Approves;
    var r := Approving(rules, entries, f);
    if r != [] { assert r[0] in r; }
  }

  lemma SingleApproval(rules: Rules, extra: seq<Entry>, f: Finding)
    ensures |FirstOfEach(Approving(rules, extra, f))| == 1 <==> OneApproval(rules, extra, f)
  {
    var entries := Approving(rules, extra, f);
    var r := FirstOfEach(entries);
    hide Approves, FirstOfEach, Approving;
    FirstOfEachIs(entries);
    if |r| == 1 {
      assert r[0] in r;
      forall e | e in entries ensures SameApproval(r[0], e) {
        var x :| x in r && SameApproval(x, e);
      }
    }
    if OneApproval(rules, extra, f) {
      var e :| e in extra && Approves(rules, e, f);
      assert e in entries && entries[0] in entries;
      FirstOfAlike(entries);
    }
  }
}
