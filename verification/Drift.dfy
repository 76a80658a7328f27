/** Classified drift between two observations of one finding (_substantive_state, _direction, _adverse, _drift and
    _drift_totals in shadowscan/comparison.py). */
module Drift {
  import opened Ordering
  import Text

  // ---------------------------------------------------------------- substantive state

  datatype Scalar = Absent | Text(text: string) | Flag(flag: bool) | Number(number: int)

  datatype ScalarField =
    | KindField | ResourceType | ToolHash | AutonomyFloor | AutonomyCeiling | AutonomyOversight | AutonomyInitiation
    | Owner | Shadow | RegistryMatch | Reconciliation

  datatype ListField = Permissions | Capabilities | Frameworks | ModelProviders | Models | Tags

  datatype Field = ScalarIn(scalar: ScalarField) | ListIn(list: ListField) | RiskScore | RiskLevel | RiskFactors

  datatype State = State(
    kind: Scalar, resourceType: Scalar, owner: Scalar, shadow: Scalar, registryMatch: Scalar,
    floor: Scalar, ceiling: Scalar, oversight: Scalar, initiation: Scalar, toolHash: Scalar, reconciliation: Scalar,
    permissions: set<string>, capabilities: set<string>, frameworks: set<string>, providers: set<string>,
    models: set<string>, tags: set<string>,
    riskScore: real, riskLevel: string, riskFactors: set<string>)

  const SCALARS: seq<ScalarField> := [
    KindField, ResourceType, ToolHash, AutonomyFloor, AutonomyCeiling, AutonomyOversight, AutonomyInitiation,
    Owner, Shadow, RegistryMatch, Reconciliation]

  const LISTS: seq<ListField> := [Permissions, Capabilities, Frameworks, ModelProviders, Models, Tags]

  function At(s: State, f: ScalarField): Scalar {
    match f
    case KindField => s.kind
    case ResourceType => s.resourceType
    case ToolHash => s.toolHash
    case AutonomyFloor => s.floor
    case AutonomyCeiling => s.ceiling
    case AutonomyOversight => s.oversight
    case AutonomyInitiation => s.initiation
    case Owner => s.owner
    case Shadow => s.shadow
    case RegistryMatch => s.registryMatch
    case Reconciliation => s.reconciliation
  }

  function Items(s: State, f: ListField): set<string> {
    match f
    case Permissions => s.permissions
    case Capabilities => s.capabilities
    case Frameworks => s.frameworks
    case ModelProviders => s.providers
    case Models => s.models
    case Tags => s.tags
  }

  predicate Differs(before: State, after: State, f: Field) {
    match f
    case ScalarIn(scalar) => At(before, scalar) != At(after, scalar)
    case ListIn(list) => Items(before, list) != Items(after, list)
    case RiskScore => before.riskScore != after.riskScore
    case RiskLevel => before.riskLevel != after.riskLevel
    case RiskFactors => before.riskFactors != after.riskFactors
  }

  /** Two states are equal exactly when no field differs. */
  lemma StatesDifferInAField(before: State, after: State)
    ensures before != after <==> exists f :: Differs(before, after, f)
  {
    if forall f :: !Differs(before, after, f) {
      forall f: ScalarField ensures At(before, f) == At(after, f) { assert !Differs(before, after, ScalarIn(f)); }
      forall f: ListField ensures Items(before, f) == Items(after, f) { assert !Differs(before, after, ListIn(f)); }
      assert !Differs(before, after, RiskScore) && !Differs(before, after, RiskLevel) && !Differs(before, after, RiskFactors);
      SameFieldsSameState(before, after);
    }
  }

  lemma SameFieldsSameState(before: State, after: State)
    requires forall f: ScalarField :: At(before, f) == At(after, f)
    requires forall f: ListField :: Items(before, f) == Items(after, f)
    requires before.riskScore == after.riskScore && before.riskLevel == after.riskLevel
    requires before.riskFactors == after.riskFactors
    ensures before == after
  {
    assert At(before, KindField) == At(after, KindField) && At(before, ResourceType) == At(after, ResourceType)
           && At(before, ToolHash) == At(after, ToolHash) && At(before, AutonomyFloor) == At(after, AutonomyFloor)
           && At(before, AutonomyCeiling) == At(after, AutonomyCeiling);
    assert At(before, AutonomyOversight) == At(after, AutonomyOversight)
           && At(before, AutonomyInitiation) == At(after, AutonomyInitiation) && At(before, Owner) == At(after, Owner);
    assert At(before, Shadow) == At(after, Shadow) && At(before, RegistryMatch) == At(after, RegistryMatch)
           && At(before, Reconciliation) == At(after, Reconciliation);
    assert Items(before, Permissions) == Items(after, Permissions) && Items(before, Capabilities) == Items(after, Capabilities)
           && Items(before, Frameworks) == Items(after, Frameworks);
    assert Items(before, ModelProviders) == Items(after, ModelProviders) && Items(before, Models) == Items(after, Models)
           && Items(before, Tags) == Items(after, Tags);
  }

  // ---------------------------------------------------------------- direction and adversity

  datatype DriftClass = Inventory | Capability | AutonomyDrift | Governance | Coverage

  const CLASSES: seq<DriftClass> := [Inventory, Capability, AutonomyDrift, Governance, Coverage]

  datatype Direction = Set | Cleared | Rose | Fell | Changed | Added | Removed | Replaced

  const GOVERNANCE_TAGS := {"autonomy-understated"}
  const MITIGATING_TAGS := {
    "disabled", "inactive", "suspended", "expired", "asks-user", "test-code-only", "docs-only", "example-code-only",
    "generated-code-only", "pending-request", "managed-secret", "mcp-registry-published"}

  function ClassOf(f: ScalarField): DriftClass {
    match f
    case KindField => Inventory
    case ResourceType => Inventory
    case ToolHash => Capability
    case AutonomyFloor => AutonomyDrift
    case AutonomyCeiling => AutonomyDrift
    case AutonomyOversight => AutonomyDrift
    case AutonomyInitiation => AutonomyDrift
    case Owner => Governance
    case Shadow => Governance
    case RegistryMatch => Governance
    case Reconciliation => Governance
  }

  predicate Present(v: Scalar) {
    !v.Absent? && !(v.Text? && Text.Blank(v.text))
  }

  // The autonomy a value admits: a level, or the rank of an oversight or initiation word.
  function AutonomyRank(f: ScalarField, v: Scalar): int {
    if v.Number? then v.number
    else if v == Text("bypassed") then 2
    else if v == Text("gated") || v == Text("human") then 0
    else if v == Text("unknown") then 1
    else if v == Text("event") then 2
    else if v == Text("schedule") then 3 else 0
  }

  function DirectionOf(f: ScalarField, before: Scalar, after: Scalar): Direction {
    if !Present(before) then Set
    else if !Present(after) then Cleared
    else if ClassOf(f).AutonomyDrift? then if AutonomyRank(f, after) > AutonomyRank(f, before) then Rose else Fell
    else Changed
  }

  predicate Adverse(f: ScalarField, before: Scalar, after: Scalar, d: Direction) {
    match f
    case AutonomyFloor => d.Rose?
    case AutonomyCeiling => d.Rose?
    case AutonomyOversight => d.Rose?
    case AutonomyInitiation => d.Rose?
    case ToolHash => !d.Set?
    case Owner => d.Cleared?
    case Shadow => after == Flag(true)
    case RegistryMatch => !d.Set?
    case Reconciliation => after == Text("observed-not-registered") || before == Text("registered-and-observed")
    case KindField => true
    case ResourceType => true
  }

  predicate Widens(f: ListField, added: set<string>, removed: set<string>) {
    if f.Tags? then added - MITIGATING_TAGS != {} || removed * MITIGATING_TAGS != {} else added != {}
  }

  // ---------------------------------------------------------------- drift entries

  datatype Entry =
    | ScalarEntry(cls: DriftClass, field: Field, direction: Direction, adverse: bool, before: Scalar, after: Scalar)
    | ListEntry(cls: DriftClass, field: Field, direction: Direction, adverse: bool, added: seq<string>, removed: seq<string>)

  function ScalarDrift(f: ScalarField, before: State, after: State, shownBefore: State, shownAfter: State): (r: seq<Entry>)
    ensures forall e :: e in r ==> e.field == ScalarIn(f) && e.cls == ClassOf(f)
  {
    if At(before, f) == At(after, f) then []
    else
      var d := DirectionOf(f, At(before, f), At(after, f));
      [ScalarEntry(ClassOf(f), ScalarIn(f), d, Adverse(f, At(before, f), At(after, f), d), At(shownBefore, f), At(shownAfter, f))]
  }

  // The part of a list field that belongs to one drift class.
  function Part(s: State, f: ListField, cls: DriftClass): set<string> {
    if cls.Governance? then (if f.Tags? then Items(s, f) * GOVERNANCE_TAGS else {})
    else if cls.Capability? then (if f.Tags? then Items(s, f) - GOVERNANCE_TAGS else Items(s, f))
    else {}
  }

  function PartDrift(f: ListField, cls: DriftClass, before: State, after: State, shownBefore: State, shownAfter: State)
    : (r: seq<Entry>)
    ensures forall e :: e in r ==> e.field == ListIn(f) && e.cls == cls
  {
    var added := Part(after, f, cls) - Part(before, f, cls);
    var removed := Part(before, f, cls) - Part(after, f, cls);
    if added == {} && removed == {} then []
    else
      [ListEntry(cls, ListIn(f), if added != {} && removed != {} then Replaced else if added != {} then Added else Removed,
                 Widens(f, added, removed),
                 Sorted(Part(shownAfter, f, cls) - Part(shownBefore, f, cls)),
                 Sorted(Part(shownBefore, f, cls) - Part(shownAfter, f, cls)))]
  }

  function ScalarDrifts(fs: seq<ScalarField>, before: State, after: State, shownBefore: State, shownAfter: State): seq<Entry> {
    if fs == [] then []
    else ScalarDrifts(fs[..|fs| - 1], before, after, shownBefore, shownAfter)
         + ScalarDrift(fs[|fs| - 1], before, after, shownBefore, shownAfter)
  }

  function ListDrifts(fs: seq<ListField>, before: State, after: State, shownBefore: State, shownAfter: State): seq<Entry> {
    if fs == [] then []
    else
      var f := fs[|fs| - 1];
      ListDrifts(fs[..|fs| - 1], before, after, shownBefore, shownAfter)
      + PartDrift(f, Capability, before, after, shownBefore, shownAfter)
      + PartDrift(f, Governance, before, after, shownBefore, shownAfter)
  }

  function ClassIndex(c: DriftClass): nat {
    match c
    case Inventory => 0
    case Capability => 1
    case AutonomyDrift => 2
    case Governance => 3
    case Coverage => 4
  }

  function NameOf(f: Field): string {
    match f
    case ScalarIn(KindField) => "kind"
    case ScalarIn(ResourceType) => "resource_type"
    case ScalarIn(ToolHash) => "metadata.tool_definition_sha256"
    case ScalarIn(AutonomyFloor) => "metadata.autonomy.floor"
    case ScalarIn(AutonomyCeiling) => "metadata.autonomy.ceiling"
    case ScalarIn(AutonomyOversight) => "metadata.autonomy.oversight"
    case ScalarIn(AutonomyInitiation) => "metadata.autonomy.initiation"
    case ScalarIn(Owner) => "owner"
    case ScalarIn(Shadow) => "shadow"
    case ScalarIn(RegistryMatch) => "registry_match"
    case ScalarIn(Reconciliation) => "metadata.registry_reconciliation.status"
    case ListIn(Permissions) => "permissions"
    case ListIn(Capabilities) => "capabilities"
    case ListIn(Frameworks) => "frameworks"
    case ListIn(ModelProviders) => "model_providers"
    case ListIn(Models) => "models"
    case ListIn(Tags) => "tags"
    case RiskScore => "risk.score"
    case RiskLevel => "risk.level"
    case RiskFactors => "risk.factors"
  }

  // The order of the sort key (class position, field name).
  predicate NotAfter(a: Entry, b: Entry) {
    || ClassIndex(a.cls) < ClassIndex(b.cls)
    || (a.cls == b.cls && (NameOf(a.field) == NameOf(b.field) || Less(NameOf(a.field), NameOf(b.field))))
  }

  function Insert(e: Entry, es: seq<Entry>): (r: seq<Entry>)
    ensures forall x :: x in r <==> x == e || x in es
    ensures |r| == |es| + 1
  {
    if es == [] || !NotAfter(es[0], e) then [e] + es
    else
      assert es == [es[0]] + es[1..];
      [es[0]] + Insert(e, es[1..])
  }

  function SortEntries(es: seq<Entry>): (r: seq<Entry>)
    ensures forall x :: x in r <==> x in es
    ensures |r| == |es|
  {
    if es == [] then []
    else
      assert es == es[..|es| - 1] + [es[|es| - 1]];
      Insert(es[|es| - 1], SortEntries(es[..|es| - 1]))
  }

  ghost predicate InOrder(es: seq<Entry>) {
    forall i, j :: 0 <= i < j < |es| ==> NotAfter(es[i], es[j])
  }

  lemma NotAfterIsOrder(a: Entry, b: Entry, c: Entry)
    ensures NotAfter(a, b) || NotAfter(b, a)
    ensures NotAfter(a, b) && NotAfter(b, c) ==> NotAfter(a, c)
  {
    hide NameOf, Less;
    var x, y, z := NameOf(a.field), NameOf(b.field), NameOf(c.field);
    LessIsTotal(x, y);
    if Less(x, y) && Less(y, z) { LessIsTransitive(x, y, z); }
    assert ClassIndex(a.cls) == ClassIndex(b.cls) ==> a.cls == b.cls;
  }

  lemma {:induction false} InsertInOrder(e: Entry, es: seq<Entry>)
    requires InOrder(es)
    ensures InOrder(Insert(e, es))
  {
    hide NotAfter;
    if es != [] {
      NotAfterIsOrder(es[0], e, e);
      if NotAfter(es[0], e) {
        InsertInOrder(e, es[1..]);
        var rest := Insert(e, es[1..]);
        forall k | 0 <= k < |rest| ensures NotAfter(es[0], rest[k]) {
          assert rest[k] in rest;
          assert es == [es[0]] + es[1..];
        }
      } else {
        forall k | 0 <= k < |es| ensures NotAfter(e, es[k]) {
          if k > 0 { NotAfterIsOrder(e, es[0], es[k]); }
        }
      }
    }
  }

  lemma {:induction false} SortIsInOrder(es: seq<Entry>)
    ensures InOrder(SortEntries(es))
    decreases |es|
  {
    if es != [] {
      SortIsInOrder(es[..|es| - 1]);
      InsertInOrder(es[|es| - 1], SortEntries(es[..|es| - 1]));
    }
  }

  function DriftOf(before: State, after: State, shownBefore: State, shownAfter: State): seq<Entry> {
    SortEntries(ScalarDrifts(SCALARS, before, after, shownBefore, shownAfter)
                + ListDrifts(LISTS, before, after, shownBefore, shownAfter))
  }

  method DriftEntries(before: State, after: State, shownBefore: State, shownAfter: State) returns (entries: seq<Entry>)
    ensures entries == DriftOf(before, after, shownBefore, shownAfter)
  {
    hide ScalarDrift, PartDrift, SortEntries;
    entries := [];
    for n := 0 to |SCALARS|
      invariant entries == ScalarDrifts(SCALARS[..n], before, after, shownBefore, shownAfter)
    {
      entries := entries + ScalarDrift(SCALARS[n], before, after, shownBefore, shownAfter);
      assert SCALARS[..n + 1][..n] == SCALARS[..n];
    }
    assert SCALARS[..|SCALARS|] == SCALARS;
    ghost var scalars := entries;
    for n := 0 to |LISTS|
      invariant entries == scalars + ListDrifts(LISTS[..n], before, after, shownBefore, shownAfter)
    {
      entries := entries + PartDrift(LISTS[n], Capability, before, after, shownBefore, shownAfter);
      entries := entries + PartDrift(LISTS[n], Governance, before, after, shownBefore, shownAfter);
      assert LISTS[..n + 1][..n] == LISTS[..n];
    }
    assert LISTS[..|LISTS|] == LISTS;
    entries := SortEntries(entries);
  }

  // ---------------------------------------------------------------- what the entries say

  lemma {:induction false} ScalarDriftsAre(fs: seq<ScalarField>, before: State, after: State, sb: State, sa: State)
    ensures forall e :: e in ScalarDrifts(fs, before, after, sb, sa) <==>
                        exists f :: f in fs && e in ScalarDrift(f, before, after, sb, sa)
    decreases |fs|
  {
    hide ScalarDrift;
    if fs != [] {
      var n := |fs| - 1;
      ScalarDriftsAre(fs[..n], before, after, sb, sa);
      assert fs == fs[..n] + [fs[n]];
    }
  }

  lemma {:induction false} ListDriftsAre(fs: seq<ListField>, before: State, after: State, sb: State, sa: State)
    ensures forall e :: e in ListDrifts(fs, before, after, sb, sa) <==>
                        exists f :: f in fs && (e in PartDrift(f, Capability, before, after, sb, sa)
                                                || e in PartDrift(f, Governance, before, after, sb, sa))
    decreases |fs|
  {
    hide PartDrift;
    if fs != [] {
      var n := |fs| - 1;
      ListDriftsAre(fs[..n], before, after, sb, sa);
      assert fs == fs[..n] + [fs[n]];
    }
  }

  lemma ScalarIsListed(f: ScalarField)
    ensures f in SCALARS
  {
    match f
    case KindField => assert SCALARS[0] == f;
    case ResourceType => assert SCALARS[1] == f;
    case ToolHash => assert SCALARS[2] == f;
    case AutonomyFloor => assert SCALARS[3] == f;
    case AutonomyCeiling => assert SCALARS[4] == f;
    case AutonomyOversight => assert SCALARS[5] == f;
    case AutonomyInitiation => assert SCALARS[6] == f;
    case Owner => assert SCALARS[7] == f;
    case Shadow => assert SCALARS[8] == f;
    case RegistryMatch => assert SCALARS[9] == f;
    case Reconciliation => assert SCALARS[10] == f;
  }

  lemma ListIsListed(g: ListField)
    ensures g in LISTS
  {
    match g
    case Permissions => assert LISTS[0] == g;
    case Capabilities => assert LISTS[1] == g;
    case Frameworks => assert LISTS[2] == g;
    case ModelProviders => assert LISTS[3] == g;
    case Models => assert LISTS[4] == g;
    case Tags => assert LISTS[5] == g;
  }

  // e reports the change of one scalar, or of one part of a list.
  ghost predicate Reports(before: State, after: State, sb: State, sa: State, e: Entry) {
    || (e.field.ScalarIn? && e in ScalarDrift(e.field.scalar, before, after, sb, sa))
    || (e.field.ListIn? && (e in PartDrift(e.field.list, Capability, before, after, sb, sa)
                            || e in PartDrift(e.field.list, Governance, before, after, sb, sa)))
  }

  lemma ScalarReported(fs: seq<ScalarField>, before: State, after: State, sb: State, sa: State, e: Entry)
    requires forall f: ScalarField :: f in fs
    ensures e in ScalarDrifts(fs, before, after, sb, sa) <==>
            e.field.ScalarIn? && e in ScalarDrift(e.field.scalar, before, after, sb, sa)
  {
    ScalarDriftsAre(fs, before, after, sb, sa);
    hide ScalarDrifts, ScalarDrift;
  }

  lemma ListReported(fs: seq<ListField>, before: State, after: State, sb: State, sa: State, e: Entry)
    requires forall f: ListField :: f in fs
    ensures e in ListDrifts(fs, before, after, sb, sa) <==>
            e.field.ListIn? && (e in PartDrift(e.field.list, Capability, before, after, sb, sa)
                                || e in PartDrift(e.field.list, Governance, before, after, sb, sa))
  {
    ListDriftsAre(fs, before, after, sb, sa);
    hide ListDrifts, PartDrift;
  }

  lemma DriftIs(before: State, after: State, sb: State, sa: State)
    ensures forall e :: e in DriftOf(before, after, sb, sa) <==> Reports(before, after, sb, sa, e)
  {
    hide ScalarDrifts, ListDrifts, SortEntries, ScalarDrift, PartDrift;
    forall e ensures e in DriftOf(before, after, sb, sa) <==> Reports(before, after, sb, sa, e) {
      DriftReports(before, after, sb, sa, e);
    }
  }

  lemma DriftReports(before: State, after: State, sb: State, sa: State, e: Entry)
    ensures e in DriftOf(before, after, sb, sa) <==> Reports(before, after, sb, sa, e)
  {
    forall f: ScalarField ensures f in SCALARS { ScalarIsListed(f); }
    forall g: ListField ensures g in LISTS { ListIsListed(g); }
    hide ScalarDrifts, ListDrifts, SortEntries, ScalarDrift, PartDrift;
    ScalarReported(SCALARS, before, after, sb, sa, e);
    ListReported(LISTS, before, after, sb, sa, e);
  }

  /** Every differing field outside the risk block has a drift entry, and every entry names a field that differs. */
  lemma EveryDifferenceIsClassified(before: State, after: State, sb: State, sa: State, f: Field)
    requires f.ScalarIn? || f.ListIn?
    ensures Differs(before, after, f) <==> exists e :: e in DriftOf(before, after, sb, sa) && e.field == f
  {
    DriftIs(before, after, sb, sa);
    hide DriftOf, Sorted;
    if f.ScalarIn? {
      if Differs(before, after, f) {
        var e := ScalarDrift(f.scalar, before, after, sb, sa)[0];
        assert Reports(before, after, sb, sa, e);
      }
    } else {
      PartsCover(before, after, f.list);
      if Differs(before, after, f) {
        var cls := if Part(before, f.list, Capability) != Part(after, f.list, Capability) then Capability else Governance;
        assert |PartDrift(f.list, cls, before, after, sb, sa)| == 1;
        var e := PartDrift(f.list, cls, before, after, sb, sa)[0];
        assert e in PartDrift(f.list, cls, before, after, sb, sa);
        assert Reports(before, after, sb, sa, e);
      }
    }
  }

  /** A list differs exactly when its capability part or its governance part does. */
  lemma PartsCover(before: State, after: State, f: ListField)
    ensures Items(before, f) != Items(after, f) <==>
            Part(before, f, Capability) != Part(after, f, Capability) || Part(before, f, Governance) != Part(after, f, Governance)
  {
    if Part(before, f, Capability) == Part(after, f, Capability) && Part(before, f, Governance) == Part(after, f, Governance) {
      assert Items(before, f) == Part(before, f, Capability) + Part(before, f, Governance);
      assert Items(after, f) == Part(after, f, Capability) + Part(after, f, Governance);
    }
  }

  // Same class, field, direction and adversity.
  predicate SameVerdict(a: Entry, b: Entry) {
    a.cls == b.cls && a.field == b.field && a.direction == b.direction && a.adverse == b.adverse
  }

  /** The verdicts come from the observed states: showing other values changes none of them. */
  lemma ShownValuesDoNotMatter(before: State, after: State, sb: State, sa: State, e: Entry)
    requires e in DriftOf(before, after, sb, sa)
    ensures exists x :: x in DriftOf(before, after, before, after) && SameVerdict(e, x)
  {
    SameVerdictFor(before, after, sb, sa, before, after, e);
  }

  lemma SameVerdictFor(before: State, after: State, sb: State, sa: State, tb: State, ta: State, e: Entry)
    requires e in DriftOf(before, after, sb, sa)
    ensures exists x :: x in DriftOf(before, after, tb, ta) && SameVerdict(e, x)
  {
    DriftIs(before, after, sb, sa);
    DriftIs(before, after, tb, ta);
    hide DriftOf, Sorted, Part, Adverse, DirectionOf, Widens;
    if e.field.ScalarIn? {
      var x := ScalarDrift(e.field.scalar, before, after, tb, ta)[0];
      assert Reports(before, after, tb, ta, x);
    } else {
      var x := PartDrift(e.field.list, e.cls, before, after, tb, ta)[0];
      assert x in PartDrift(e.field.list, e.cls, before, after, tb, ta);
      assert Reports(before, after, tb, ta, x);
    }
  }

  /** Swapping the two observations turns a rise of the autonomy interval into a fall. */
  lemma RiseReverses(f: ScalarField, before: Scalar, after: Scalar)
    requires ClassOf(f).AutonomyDrift? && Present(before) && Present(after)
    requires AutonomyRank(f, before) != AutonomyRank(f, after)
    ensures DirectionOf(f, before, after).Rose? <==> DirectionOf(f, after, before).Fell?
    ensures Adverse(f, before, after, DirectionOf(f, before, after)) <==>
            !Adverse(f, after, before, DirectionOf(f, after, before))
  {
  }
}
