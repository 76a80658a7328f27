/** The classifier of shadowscan/autonomy.py and the blocks it produces. Metadata is modelled by what the classifier
    reads of it: label text arrives folded, and values of another shape arrive as their absence. */
module AutonomyClassifier {
  import opened Autonomy
  import opened Text

  datatype Server = Server(disabled: bool, autoApproves: bool)
  datatype Issue = Issue(id: string, setting: string)

  datatype Finding = Finding(
    kind: Kind, onEndpoint: bool, resourceType: string,
    capabilities: set<string>, tags: set<string>, signatures: set<string>,
    servers: seq<Server>, posture: seq<Issue>,
    gate: Option<Scope>, cadenceCorroborated: bool,
    flowTrigger: string, triggerTypes: set<string>, trigger: Option<string>,
    shadow: Option<bool>, registryMatch: Option<string>)

  datatype Declared = Declared(level: int, source: string)

  datatype Block = Block(
    floor: int, floorLabel: string, ceiling: int, ceilingLabel: string,
    oversight: Oversight, initiation: Initiation, basis: seq<Item>, declared: Option<Declared>)

  const TOOL_ACCESS := {"tool-use", "rag", "browsing", "data-access", "memory"}
  const SIDE_EFFECTS := {"saas-actions", "code-exec", "delegated-identity"}
  const UNAPPROVED := {"saas-actions", "code-exec", "delegated-identity", "data-access"}
  const BYPASS_TAGS := {"posture-permissions-bypassed", "mcp-auto-approve"}
  const SCHEDULE_TYPES := {"recurrence", "slidingwindow"}
  const EVENT_TYPES :=
    {"apiconnection", "apiconnectionwebhook", "openapiconnection", "openapiconnectionwebhook", "httpwebhook"}
  const EVENT_FLOWS := {"recordaftersave", "recordbeforesave", "recordbeforedelete", "platformevent"}
  const NOT_EVENTS := {"", "manual", "none", "http", "https", "request"}
  const INTERACTIVE := {"ide-extension", "browser-extension", "cli-usage"}

  function Title(level: int): string {
    match level
    case 0 => "L0 Chatbot"
    case 1 => "L1 Copilot"
    case 2 => "L2 Supervised"
    case 3 => "L3 Semi-Autonomous / Agentic Workflow"
    case 4 => "L4 High Autonomy"
    case 5 => "L5 Fully Autonomous"
    case _ => ""
  }

  predicate Meets(a: set<string>, b: set<string>) {
    exists x :: x in a && x in b
  }

  // ---------------------------------------------------------------- evidence

  function TriggerInitiation(f: Finding): Option<Initiation> {
    if "scheduled" in f.tags || ("always-on" in f.tags && f.cadenceCorroborated)
       || f.flowTrigger == "scheduled" || Meets(f.triggerTypes, SCHEDULE_TYPES)
    then Some(Schedule)
    else if "event-triggered" in f.tags || f.flowTrigger in EVENT_FLOWS || Meets(f.triggerTypes, EVENT_TYPES)
            || (f.trigger.Some? && f.trigger.value !in NOT_EVENTS)
    then Some(Event)
    else None
  }

  function ObservedInitiation(f: Finding): Initiation {
    match TriggerInitiation(f)
    case Some(i) => i
    case None => if f.onEndpoint && f.resourceType in INTERACTIVE then Human else UnknownInitiation
  }

  predicate AutonomousIsBypass(f: Finding, triggered: bool) {
    && "autonomous" in f.capabilities
    && ("heuristic.autonomy" in f.signatures
        || !(f.kind.Workflow? || triggered || "heuristic.scheduled-agent" in f.signatures))
  }

  predicate BypassEvidence(f: Finding) {
    || Meets(f.tags, BYPASS_TAGS)
    || (exists s :: s in f.servers && !s.disabled && s.autoApproves)
    || (exists i :: i in f.posture && i == Issue("posture-unrestricted-shell", "permissions.allow"))
    || AutonomousIsBypass(f, TriggerInitiation(f).Some? || "always-on" in f.tags)
  }

  // ---------------------------------------------------------------- classification

  predicate Applicable(f: Finding) {
    !f.kind.OtherKind?
  }

  function Raise(initiation: Option<Initiation>, observed: Initiation): Initiation {
    if initiation.None? || InitiationRank(observed) >= InitiationRank(initiation.value) then observed
    else initiation.value
  }

  /** _classify: the interval of one finding, with bypass and initiation evidence of other reports added. */
  function Classify(f: Finding, bypassed: bool, initiation: Option<Initiation>): (r: Option<Block>)
    ensures r.Some? <==> Applicable(f)
  {
    if !Applicable(f) then None
    else Some(Interval(f, bypassed || BypassEvidence(f), Raise(initiation, ObservedInitiation(f))))
  }

  predicate EveryActionGated(f: Finding, bypassed: bool) {
    f.gate == Some(EveryAction) && !bypassed
  }

  predicate Agentic(f: Finding, bypassed: bool) {
    || f.kind.Workflow? || "multi-agent" in f.capabilities
    || (f.kind.Agent? && "tool-use" in f.capabilities && !EveryActionGated(f, bypassed))
  }

  predicate Unapproved(f: Finding, bypassed: bool) {
    bypassed && Meets(f.capabilities, UNAPPROVED)
  }

  function FloorItems(f: Finding, bypassed: bool, initiation: Initiation): seq<Item> {
    [Item(Floor, AiSystem, Level(0))]
    + (if Meets(f.capabilities, TOOL_ACCESS) then [Item(Floor, ToolAccess, Level(1))] else [])
    + (if Meets(f.capabilities, SIDE_EFFECTS) || "write-access" in f.tags
       then [Item(Floor, SideEffectTools, Level(2))] else [])
    + (if Agentic(f, bypassed) then [Item(Floor, AgenticExecution, Level(3))] else [])
    + (if Unapproved(f, bypassed) then [Item(Floor, UnapprovedSideEffects, Level(4))] else [])
    + (if Unapproved(f, bypassed) && (initiation.Schedule? || initiation.Event?)
       then [Item(Floor, SelfInitiated, Level(5))] else [])
  }

  function Highest(items: seq<Item>, low: int): int {
    if items == [] then low
    else
      var rest := Highest(items[..|items| - 1], low);
      var v := items[|items| - 1].value;
      if v.Level? && v.level > rest then v.level else rest
  }

  function CeilingItems(f: Finding, bypassed: bool, floor: int): seq<Item> {
    var ceiling := if EveryActionGated(f, bypassed) then 2 else MAX_LEVEL;
    var rule := if EveryActionGated(f, bypassed) then PerActionApproval
                else if f.gate == Some(EveryAction) then ConflictingEvidence else NoRestrictionEvidence;
    [Item(Ceiling, rule, Level(ceiling))]
    + (if floor > ceiling then [Item(Ceiling, ConflictingEvidence, Level(floor))] else [])
  }

  function CeilingOf(f: Finding, bypassed: bool, floor: int): int {
    var ceiling := if EveryActionGated(f, bypassed) then 2 else MAX_LEVEL;
    if floor > ceiling then floor else ceiling
  }

  function OversightOf(f: Finding, bypassed: bool): Oversight {
    if bypassed then Bypassed else if f.gate.Some? || "asks-user" in f.tags then Gated else UnknownOversight
  }

  function OversightRule(o: Oversight): Rule {
    match o
    case Bypassed => ApprovalBypassed
    case Gated => ApprovalGated
    case UnknownOversight => NoOversightEvidence
  }

  function InitiationRule(i: Initiation): Rule {
    match i
    case Schedule => ScheduleTrigger
    case Event => EventTrigger
    case Human => InteractiveClient
    case UnknownInitiation => NoInitiationEvidence
  }

  function OversightAndInitiation(o: Oversight, i: Initiation): seq<Item> {
    [Item(OversightBound, OversightRule(o), OversightValue(o))] + [Item(InitiationBound, InitiationRule(i), InitiationValue(i))]
  }

  function RawBasis(f: Finding, bypassed: bool, initiation: Initiation): seq<Item> {
    var floor := Highest(FloorItems(f, bypassed, initiation), 0);
    FloorItems(f, bypassed, initiation) + CeilingItems(f, bypassed, floor)
    + OversightAndInitiation(OversightOf(f, bypassed), initiation)
  }

  function Interval(f: Finding, bypassed: bool, initiation: Initiation): Block {
    var floor := Highest(FloorItems(f, bypassed, initiation), 0);
    var ceiling := CeilingOf(f, bypassed, floor);
    Block(floor, Title(floor), ceiling, Title(ceiling), OversightOf(f, bypassed), initiation,
          Ordered(RawBasis(f, bypassed, initiation)), None)
  }

  // ---------------------------------------------------------------- well-formed blocks

  /** valid_autonomy, over blocks whose fields have the right shape; the rest are Malformed sources. */
  predicate ValidBlock(b: Block) {
    && IsLevel(b.floor) && IsLevel(b.ceiling) && b.floor <= b.ceiling
    && b.floorLabel == Title(b.floor) && b.ceilingLabel == Title(b.ceiling)
    && (b.declared.Some? ==> IsLevel(b.declared.value.level) && !Blank(b.declared.value.source))
    && |b.basis| <= MAX_BASIS
    && ValidItems(b.basis)
  }

  function Rank(b: Block, bound: Bound): int {
    match bound
    case Floor => b.floor
    case Ceiling => b.ceiling
    case OversightBound => OversightRank(b.oversight)
    case InitiationBound => InitiationRank(b.initiation)
  }

  ghost predicate Wider(a: Block, b: Block) {
    forall bound :: Rank(a, bound) <= Rank(b, bound)
  }

  // ---------------------------------------------------------------- properties of the classifier

  lemma {:induction false} HighestIs(items: seq<Item>, low: int, top: int)
    requires low <= top && (forall it :: it in items && it.value.Level? ==> it.value.level <= top)
    requires top == low || exists it :: it in items && it.value == Level(top)
    ensures Highest(items, low) == top
    decreases |items|
  {
    if items != [] {
      var n := |items| - 1;
      var v := items[n].value;
      assert items[n] in items;
      if v == Level(top) {
        HighestAtMost(items[..n], low, top);
      } else {
        if top != low {
          var it :| it in items && it.value == Level(top);
          assert it in items[..n];
        }
        HighestIs(items[..n], low, top);
      }
    }
  }

  lemma {:induction false} HighestAtMost(items: seq<Item>, low: int, top: int)
    requires low <= top && (forall it :: it in items && it.value.Level? ==> it.value.level <= top)
    ensures low <= Highest(items, low) <= top
    decreases |items|
  {
    if items != [] {
      assert items[|items| - 1] in items;
      HighestAtMost(items[..|items| - 1], low, top);
    }
  }

  /** The floor by cases: the highest level whose evidence is present. */
  function FloorLevel(f: Finding, bypassed: bool, initiation: Initiation): int {
    if Unapproved(f, bypassed) && (initiation.Schedule? || initiation.Event?) then 5
    else if Unapproved(f, bypassed) then 4
    else if Agentic(f, bypassed) then 3
    else if Meets(f.capabilities, SIDE_EFFECTS) || "write-access" in f.tags then 2
    else if Meets(f.capabilities, TOOL_ACCESS) then 1
    else 0
  }

  lemma FloorIsLevel(f: Finding, bypassed: bool, initiation: Initiation)
    ensures Highest(FloorItems(f, bypassed, initiation), 0) == FloorLevel(f, bypassed, initiation)
  {
    hide Meets, Agentic, Unapproved;
    var items := FloorItems(f, bypassed, initiation);
    var top := FloorLevel(f, bypassed, initiation);
    var last := |items| - 1;
    assert items[last].value == Level(top);
    assert items[last] in items;
    HighestIs(items, 0, top);
  }

  /** More bypass or initiation evidence never narrows any bound. The same is not true of tags: see AutonomyTags. */
  lemma ClassifyMonotone(f: Finding, b1: bool, i1: Option<Initiation>, b2: bool, i2: Option<Initiation>)
    requires Applicable(f) && (b1 ==> b2)
    requires i1.Some? ==> i2.Some? && InitiationRank(i1.value) <= InitiationRank(i2.value)
    ensures Wider(Classify(f, b1, i1).value, Classify(f, b2, i2).value)
  {
    IntervalMonotone(f, b1 || BypassEvidence(f), Raise(i1, ObservedInitiation(f)),
                     b2 || BypassEvidence(f), Raise(i2, ObservedInitiation(f)));
  }

  lemma IntervalMonotone(f: Finding, b1: bool, i1: Initiation, b2: bool, i2: Initiation)
    requires (b1 ==> b2) && InitiationRank(i1) <= InitiationRank(i2)
    ensures Wider(Interval(f, b1, i1), Interval(f, b2, i2))
  {
    hide Meets, FloorItems, Highest, Ordered, RawBasis;
    FloorIsLevel(f, b1, i1);
    FloorIsLevel(f, b2, i2);
  }

  lemma IntervalIsValid(f: Finding, bypassed: bool, initiation: Initiation)
    ensures ValidBlock(Interval(f, bypassed, initiation))
    ensures SingleValued(Interval(f, bypassed, initiation).basis)
    ensures forall it :: it in Interval(f, bypassed, initiation).basis ==> it.rule != DeclaredAboveCeiling
  {
    FloorIsLevel(f, bypassed, initiation);
    RawIsValid(f, bypassed, initiation);
    hide RawBasis, FloorItems, Highest, Meets;
    var raw := RawBasis(f, bypassed, initiation);
    OrderedIsValid(raw);
    OrderedKeepsEveryRule(raw);
    OrderedIsSingleValued(raw);
  }

  lemma RawIsValid(f: Finding, bypassed: bool, initiation: Initiation)
    ensures ValidItems(RawBasis(f, bypassed, initiation))
    ensures forall it :: it in RawBasis(f, bypassed, initiation) ==> it.rule != DeclaredAboveCeiling
  {
    FloorIsLevel(f, bypassed, initiation);
    var floor := Highest(FloorItems(f, bypassed, initiation), 0);
    FloorItemsAreValid(f, bypassed, initiation);
    CeilingItemsAreValid(f, bypassed, floor);
    PartsAreValid(FloorItems(f, bypassed, initiation), CeilingItems(f, bypassed, floor), OversightOf(f, bypassed), initiation);
    hide FloorItems, CeilingItems, Highest, OversightOf, FloorLevel, OversightAndInitiation;
  }

  lemma PartsAreValid(floors: seq<Item>, ceilings: seq<Item>, o: Oversight, i: Initiation)
    requires forall it :: it in floors ==> ValidItem(it) && it.rule != DeclaredAboveCeiling
    requires forall it :: it in ceilings ==> ValidItem(it) && it.rule != DeclaredAboveCeiling
    ensures ValidItems(floors + ceilings + OversightAndInitiation(o, i))
    ensures forall it :: it in floors + ceilings + OversightAndInitiation(o, i) ==> it.rule != DeclaredAboveCeiling
  {
  }

  lemma FloorItemsAreValid(f: Finding, bypassed: bool, initiation: Initiation)
    ensures forall it :: it in FloorItems(f, bypassed, initiation) ==> ValidItem(it) && it.rule != DeclaredAboveCeiling
  {
    hide Meets, Agentic, Unapproved;
  }

  lemma CeilingItemsAreValid(f: Finding, bypassed: bool, floor: int)
    requires IsLevel(floor)
    ensures forall it :: it in CeilingItems(f, bypassed, floor) ==> ValidItem(it) && it.rule != DeclaredAboveCeiling
  {
  }

  /** classify: every interval it produces is a well-formed block. */
  lemma ClassifyIsValid(f: Finding, bypassed: bool, initiation: Option<Initiation>)
    requires Applicable(f)
    ensures ValidBlock(Classify(f, bypassed, initiation).value)
  {
    IntervalIsValid(f, bypassed || BypassEvidence(f), Raise(initiation, ObservedInitiation(f)));
  }
}
