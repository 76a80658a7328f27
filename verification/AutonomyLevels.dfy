/** What each bound and each rule of a classified interval means, read off the fields of the finding. */
module AutonomyLevels {
  import opened Autonomy
  import opened AutonomyClassifier
  import Text

  // ---------------------------------------------------------------- evidence, spelled out

  predicate UsesTools(f: Finding) {
    || "tool-use" in f.capabilities || "rag" in f.capabilities || "browsing" in f.capabilities
    || "data-access" in f.capabilities || "memory" in f.capabilities
  }

  predicate HasSideEffects(f: Finding) {
    "saas-actions" in f.capabilities || "code-exec" in f.capabilities || "delegated-identity" in f.capabilities
  }

  predicate WritesUnasked(f: Finding) {
    HasSideEffects(f) || "data-access" in f.capabilities
  }

  // A workflow, several agents, or an agent choosing its tools that no gate on every action holds back.
  predicate RunsItself(f: Finding, oversight: Oversight) {
    || f.kind.Workflow? || "multi-agent" in f.capabilities
    || (f.kind.Agent? && "tool-use" in f.capabilities && (f.gate != Some(EveryAction) || oversight.Bypassed?))
  }

  lemma CapabilitiesAre(f: Finding)
    ensures Meets(f.capabilities, TOOL_ACCESS) <==> UsesTools(f)
    ensures Meets(f.capabilities, SIDE_EFFECTS) <==> HasSideEffects(f)
    ensures Meets(f.capabilities, UNAPPROVED) <==> WritesUnasked(f)
  {
    assert "tool-use" in TOOL_ACCESS && "rag" in TOOL_ACCESS && "browsing" in TOOL_ACCESS && "data-access" in TOOL_ACCESS;
    assert "memory" in TOOL_ACCESS;
    assert "saas-actions" in SIDE_EFFECTS && "code-exec" in SIDE_EFFECTS && "delegated-identity" in SIDE_EFFECTS;
    assert "saas-actions" in UNAPPROVED && "code-exec" in UNAPPROVED && "delegated-identity" in UNAPPROVED;
    assert "data-access" in UNAPPROVED;
  }

  // ---------------------------------------------------------------- the floor and the ceiling

  lemma ClassifiedIs(f: Finding, bypassed: bool, initiation: Option<Initiation>)
    requires Applicable(f)
    ensures var b := Classify(f, bypassed, initiation).value;
            && b.floor == FloorLevel(f, bypassed || BypassEvidence(f), b.initiation)
            && b.ceiling == CeilingOf(f, bypassed || BypassEvidence(f), b.floor)
            && b.oversight == OversightOf(f, bypassed || BypassEvidence(f))
            && b.initiation == Raise(initiation, ObservedInitiation(f))
            && b.basis == Ordered(RawBasis(f, bypassed || BypassEvidence(f), b.initiation))
  {
    hide FloorItems, Highest, RawBasis, Ordered, BypassEvidence, ObservedInitiation, Raise, FloorLevel;
    FloorIsLevel(f, bypassed || BypassEvidence(f), Raise(initiation, ObservedInitiation(f)));
  }

  /** Every level of the floor, by what it takes to reach it. */
  lemma FloorMeans(f: Finding, bypassed: bool, initiation: Option<Initiation>)
    requires Applicable(f)
    ensures var b := Classify(f, bypassed, initiation).value;
            && 0 <= b.floor <= 5
            && (b.floor == 5 <==> b.floor >= 4 && (b.initiation.Schedule? || b.initiation.Event?))
            && (b.floor >= 4 <==> b.oversight.Bypassed? && WritesUnasked(f))
            && (b.floor >= 3 <==> b.floor >= 4 || RunsItself(f, b.oversight))
            && (b.floor >= 2 <==> b.floor >= 3 || HasSideEffects(f) || "write-access" in f.tags)
            && (b.floor >= 1 <==> b.floor >= 2 || UsesTools(f))
  {
    ClassifiedIs(f, bypassed, initiation);
    CapabilitiesAre(f);
    hide Classify, BypassEvidence, ObservedInitiation, Raise, Meets, UsesTools, HasSideEffects, WritesUnasked, RawBasis, Ordered;
  }

  /** The ceiling is 5 unless a gate on every action stands unbypassed; then it is 2, or the floor if that is higher. */
  lemma CeilingMeans(f: Finding, bypassed: bool, initiation: Option<Initiation>)
    requires Applicable(f)
    ensures var b := Classify(f, bypassed, initiation).value;
            b.ceiling == if f.gate != Some(EveryAction) || b.oversight.Bypassed? then 5 else if b.floor > 2 then b.floor else 2
  {
    ClassifiedIs(f, bypassed, initiation);
    FloorMeans(f, bypassed, initiation);
    hide Classify, BypassEvidence, ObservedInitiation, Raise, Ordered, RawBasis, FloorLevel, RunsItself, WritesUnasked, UsesTools;
  }

  // ---------------------------------------------------------------- oversight

  // The tags, servers and settings that record a run without approval.
  ghost predicate RecordsBypass(f: Finding) {
    || "posture-permissions-bypassed" in f.tags || "mcp-auto-approve" in f.tags
    || (exists s :: s in f.servers && !s.disabled && s.autoApproves)
    || Issue("posture-unrestricted-shell", "permissions.allow") in f.posture
  }

  // Something explains the autonomous capability as a run that no person starts.
  ghost predicate StartsItself(f: Finding) {
    f.kind.Workflow? || TriggerInitiation(f).Some? || "always-on" in f.tags || "heuristic.scheduled-agent" in f.signatures
  }

  /** Oversight is bypassed exactly when another report says so, a setting records it, or the autonomous capability does:
      disabled approval in code, or nothing that explains it otherwise. */
  lemma OversightMeans(f: Finding, bypassed: bool, initiation: Option<Initiation>)
    requires Applicable(f)
    ensures var b := Classify(f, bypassed, initiation).value;
            && (b.oversight.Bypassed? <==>
                || bypassed || RecordsBypass(f)
                || ("autonomous" in f.capabilities && ("heuristic.autonomy" in f.signatures || !StartsItself(f))))
            && (b.oversight.Gated? <==> !b.oversight.Bypassed? && (f.gate.Some? || "asks-user" in f.tags))
  {
    ClassifiedIs(f, bypassed, initiation);
    assert Meets(f.tags, BYPASS_TAGS) <==> "posture-permissions-bypassed" in f.tags || "mcp-auto-approve" in f.tags by {
      assert "posture-permissions-bypassed" in BYPASS_TAGS && "mcp-auto-approve" in BYPASS_TAGS;
    }
    hide Classify, ObservedInitiation, Raise, Meets, TriggerInitiation, RawBasis, Ordered, FloorLevel, CeilingOf;
  }

  // ---------------------------------------------------------------- initiation

  ghost predicate Scheduled(f: Finding) {
    || "scheduled" in f.tags || ("always-on" in f.tags && f.cadenceCorroborated) || f.flowTrigger == "scheduled"
    || "recurrence" in f.triggerTypes || "slidingwindow" in f.triggerTypes
  }

  ghost predicate SetOffByEvents(f: Finding) {
    || "event-triggered" in f.tags
    || f.flowTrigger == "recordaftersave" || f.flowTrigger == "recordbeforesave" || f.flowTrigger == "recordbeforedelete"
    || f.flowTrigger == "platformevent"
    || "apiconnection" in f.triggerTypes || "apiconnectionwebhook" in f.triggerTypes || "openapiconnection" in f.triggerTypes
    || "openapiconnectionwebhook" in f.triggerTypes || "httpwebhook" in f.triggerTypes
    || (f.trigger.Some? && f.trigger.value != "" && f.trigger.value != "manual" && f.trigger.value != "none"
        && f.trigger.value != "http" && f.trigger.value != "https" && f.trigger.value != "request")
  }

  ghost predicate RunByHand(f: Finding) {
    f.onEndpoint && (f.resourceType == "ide-extension" || f.resourceType == "browser-extension" || f.resourceType == "cli-usage")
  }

  lemma TypesAre(f: Finding)
    ensures Meets(f.triggerTypes, SCHEDULE_TYPES) <==> "recurrence" in f.triggerTypes || "slidingwindow" in f.triggerTypes
    ensures Meets(f.triggerTypes, EVENT_TYPES) <==>
            || "apiconnection" in f.triggerTypes || "apiconnectionwebhook" in f.triggerTypes
            || "openapiconnection" in f.triggerTypes || "openapiconnectionwebhook" in f.triggerTypes || "httpwebhook" in f.triggerTypes
  {
    assert "recurrence" in SCHEDULE_TYPES && "slidingwindow" in SCHEDULE_TYPES;
    assert "apiconnection" in EVENT_TYPES && "apiconnectionwebhook" in EVENT_TYPES && "openapiconnection" in EVENT_TYPES;
    assert "openapiconnectionwebhook" in EVENT_TYPES && "httpwebhook" in EVENT_TYPES;
  }

  lemma ObservedMeans(f: Finding)
    ensures ObservedInitiation(f) ==
            if Scheduled(f) then Schedule else if SetOffByEvents(f) then Event else if RunByHand(f) then Human else UnknownInitiation
    ensures TriggerInitiation(f).Some? <==> Scheduled(f) || SetOffByEvents(f)
  {
    TypesAre(f);
    hide Meets;
  }

  /** Initiation is the observed one or the one another report adds, whichever admits more: a schedule over an event, an
      event over the unknown, the unknown over a person. */
  lemma InitiationMeans(f: Finding, bypassed: bool, initiation: Option<Initiation>)
    requires Applicable(f)
    ensures var i := Classify(f, bypassed, initiation).value.initiation;
            && (i.Schedule? <==> Scheduled(f) || initiation == Some(Schedule))
            && (i.Event? <==> !i.Schedule? && (SetOffByEvents(f) || initiation == Some(Event)))
            && (i.Human? <==> !i.Schedule? && !i.Event? && RunByHand(f) && (initiation.None? || initiation == Some(Human)))
  {
    ClassifiedIs(f, bypassed, initiation);
    ObservedMeans(f);
    hide Classify, ObservedInitiation, TriggerInitiation, Scheduled, SetOffByEvents, RunByHand, RawBasis, Ordered, FloorLevel, CeilingOf, OversightOf;
  }

  // ---------------------------------------------------------------- the basis

  // The rules that a block's basis should hold, and the value each gives its bound.
  ghost predicate Explains(f: Finding, b: Block, it: Item) {
    match it.rule
    case AiSystem => it.value == Level(0)
    case ToolAccess => it.value == Level(1) && UsesTools(f)
    case SideEffectTools => it.value == Level(2) && (HasSideEffects(f) || "write-access" in f.tags)
    case AgenticExecution => it.value == Level(3) && RunsItself(f, b.oversight)
    case UnapprovedSideEffects => it.value == Level(4) && b.floor >= 4
    case SelfInitiated => it.value == Level(5) && b.floor == 5
    case NoRestrictionEvidence => it.value == Level(5) && f.gate != Some(EveryAction)
    case PerActionApproval => it.value == Level(2) && f.gate == Some(EveryAction) && !b.oversight.Bypassed?
    case ConflictingEvidence => it.value == Level(b.ceiling) && f.gate == Some(EveryAction) && (b.oversight.Bypassed? || b.floor > 2)
    case DeclaredAboveCeiling => false
    case ApprovalBypassed => it.value == OversightValue(Bypassed) && b.oversight.Bypassed?
    case ApprovalGated => it.value == OversightValue(Gated) && b.oversight.Gated?
    case NoOversightEvidence => it.value == OversightValue(UnknownOversight) && b.oversight.UnknownOversight?
    case ScheduleTrigger => it.value == InitiationValue(Schedule) && b.initiation.Schedule?
    case EventTrigger => it.value == InitiationValue(Event) && b.initiation.Event?
    case InteractiveClient => it.value == InitiationValue(Human) && b.initiation.Human?
    case NoInitiationEvidence => it.value == InitiationValue(UnknownInitiation) && b.initiation.UnknownInitiation?
  }

  ghost predicate BoundFits(it: Item) {
    match it.rule
    case AiSystem | ToolAccess | SideEffectTools | AgenticExecution | UnapprovedSideEffects | SelfInitiated => it.bound == Floor
    case NoRestrictionEvidence | PerActionApproval | ConflictingEvidence | DeclaredAboveCeiling => it.bound == Ceiling
    case ApprovalBypassed | ApprovalGated | NoOversightEvidence => it.bound == OversightBound
    case ScheduleTrigger | EventTrigger | InteractiveClient | NoInitiationEvidence => it.bound == InitiationBound
  }

  // b has the bounds of the interval.
  ghost predicate BoundsAre(f: Finding, bypassed: bool, initiation: Initiation, b: Block) {
    && b.oversight == OversightOf(f, bypassed) && b.initiation == initiation && 0 <= b.floor <= 5
    && b.floor == FloorLevel(f, bypassed, initiation) && b.ceiling == CeilingOf(f, bypassed, b.floor)
    && (b.floor >= 4 <==> bypassed && WritesUnasked(f))
    && (b.floor == 5 <==> b.floor >= 4 && (initiation.Schedule? || initiation.Event?))
  }

  lemma FloorItemsMean(f: Finding, bypassed: bool, initiation: Initiation, b: Block, it: Item)
    requires BoundsAre(f, bypassed, initiation, b)
    ensures it in FloorItems(f, bypassed, initiation) <==> Explains(f, b, it) && BoundFits(it) && it.bound.Floor?
  {
    CapabilitiesAre(f);
    hide Meets, UsesTools, HasSideEffects, WritesUnasked, FloorLevel, CeilingOf;
  }

  lemma CeilingItemsMean(f: Finding, bypassed: bool, initiation: Initiation, b: Block, it: Item)
    requires BoundsAre(f, bypassed, initiation, b)
    ensures it in CeilingItems(f, bypassed, b.floor) <==> Explains(f, b, it) && BoundFits(it) && it.bound.Ceiling?
  {
    hide Meets, UsesTools, HasSideEffects, WritesUnasked, FloorLevel, RunsItself;
  }

  lemma OtherItemsMean(f: Finding, bypassed: bool, initiation: Initiation, b: Block, it: Item)
    requires BoundsAre(f, bypassed, initiation, b)
    ensures it in OversightAndInitiation(OversightOf(f, bypassed), initiation) <==>
            Explains(f, b, it) && BoundFits(it) && (it.bound.OversightBound? || it.bound.InitiationBound?)
  {
    hide Meets, UsesTools, HasSideEffects, WritesUnasked, FloorLevel, RunsItself, CeilingOf, OversightOf;
  }

  lemma RawMeans(f: Finding, bypassed: bool, initiation: Initiation, b: Block, it: Item)
    requires BoundsAre(f, bypassed, initiation, b)
    ensures it in RawBasis(f, bypassed, initiation) <==> Explains(f, b, it) && BoundFits(it)
  {
    FloorIsLevel(f, bypassed, initiation);
    RawParts(f, bypassed, initiation, it);
    assert b.floor == Highest(FloorItems(f, bypassed, initiation), 0);
    hide BoundsAre, RawBasis, Highest, Explains, BoundFits, FloorItems, CeilingItems, OversightAndInitiation, FloorLevel;
    FloorItemsMean(f, bypassed, initiation, b, it);
    CeilingItemsMean(f, bypassed, initiation, b, it);
    OtherItemsMean(f, bypassed, initiation, b, it);
  }

  lemma RawParts(f: Finding, bypassed: bool, initiation: Initiation, it: Item)
    ensures var floor := Highest(FloorItems(f, bypassed, initiation), 0);
            it in RawBasis(f, bypassed, initiation) <==>
            it in FloorItems(f, bypassed, initiation) || it in CeilingItems(f, bypassed, floor)
            || it in OversightAndInitiation(OversightOf(f, bypassed), initiation)
  {
    hide FloorItems, CeilingItems, OversightAndInitiation, Highest;
  }

  /** A rule is in the basis exactly when its evidence is there, with the value it gives its bound. */
  lemma BasisMeans(f: Finding, bypassed: bool, initiation: Option<Initiation>, it: Item)
    requires Applicable(f)
    ensures var b := Classify(f, bypassed, initiation).value;
            it in b.basis <==> Explains(f, b, it) && BoundFits(it)
  {
    var b := Classify(f, bypassed, initiation).value;
    var bypass, i := bypassed || BypassEvidence(f), Raise(initiation, ObservedInitiation(f));
    FloorMeans(f, bypassed, initiation);
    ClassifiedIs(f, bypassed, initiation);
    assert BoundsAre(f, bypass, i, b) by { hide Classify, FloorItems, RawBasis, Highest, BypassEvidence, ObservedInitiation, Raise, Ordered; }
    RawIsValid(f, bypass, i);
    hide BoundsAre, Classify, Interval, FloorItems, RawBasis, Highest, BypassEvidence, ObservedInitiation, Raise, FloorLevel, CeilingOf,
         WritesUnasked, RunsItself, Explains, BoundFits, OversightOf;
    forall x ensures x in RawBasis(f, bypass, i) <==> Explains(f, b, x) && BoundFits(x) { RawMeans(f, bypass, i, b, x); }
    OneValueEach(f, b, RawBasis(f, bypass, i));
    OrderedOfSingleValued(RawBasis(f, bypass, i));
  }

  lemma OneValueEach(f: Finding, b: Block, items: seq<Item>)
    requires forall x :: x in items ==> Explains(f, b, x) && BoundFits(x)
    ensures SingleValued(items)
  {
    hide RunsItself, UsesTools, HasSideEffects;
  }

  // ---------------------------------------------------------------- well-formed blocks

  const LABELS: seq<string> := [
    "L0 Chatbot", "L1 Copilot", "L2 Supervised", "L3 Semi-Autonomous / Agentic Workflow", "L4 High Autonomy", "L5 Fully Autonomous"]

  // The value is of the kind its bound has.
  ghost predicate ValueFits(it: Item) {
    match it.bound
    case Floor => it.value.Level? && 0 <= it.value.level <= 5
    case Ceiling => it.value.Level? && 0 <= it.value.level <= 5
    case OversightBound => it.value.OversightValue?
    case InitiationBound => it.value.InitiationValue?
  }

  /** A block read from a report is well formed exactly when its levels are in order and labelled as such, a declared level
      is on the scale and names its source, and each of at most 32 notes has a rule of its bound and a value of its kind. */
  lemma ValidMeans(b: Block)
    ensures ValidBlock(b) <==>
            && 0 <= b.floor <= b.ceiling <= 5
            && b.floorLabel == LABELS[b.floor] && b.ceilingLabel == LABELS[b.ceiling]
            && (b.declared.Some? ==> 0 <= b.declared.value.level <= 5 && !Text.Blank(b.declared.value.source))
            && |b.basis| <= 32
            && forall i :: 0 <= i < |b.basis| ==> BoundFits(b.basis[i]) && ValueFits(b.basis[i])
  {
    forall it ensures ValidItem(it) <==> BoundFits(it) && ValueFits(it) { }
    assert forall n :: 0 <= n <= 5 ==> LABELS[n] == Title(n);
    hide ValidItem, BoundFits, ValueFits, Text.Blank, Title;
  }
}
