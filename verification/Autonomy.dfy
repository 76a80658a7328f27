/** Autonomy intervals (shadowscan/autonomy.py): a classifier that proves a floor and a ceiling from evidence, and the
    merge that widens the interval over several reports of one finding. */
module Autonomy {
  datatype Option<T> = None | Some(value: T)

  datatype Kind =
    | Agent | FrameworkUsage | AgentConfig | McpServer | Workflow | BotApp | GatewayCaller | AiApp | RuntimeProcess
    | CloudResource | OtherKind

  datatype Oversight = Bypassed | Gated | UnknownOversight
  datatype Initiation = Schedule | Event | Human | UnknownInitiation
  datatype Scope = EveryAction | SomeActions
  datatype Bound = Floor | Ceiling | OversightBound | InitiationBound

  const MAX_LEVEL := 5
  const MAX_BASIS := 32
  const UNDERSTATED_TAG := "autonomy-understated"

  function OversightRank(o: Oversight): nat {
    match o
    case Gated => 0
    case UnknownOversight => 1
    case Bypassed => 2
  }

  function InitiationRank(i: Initiation): nat {
    match i
    case Human => 0
    case UnknownInitiation => 1
    case Event => 2
    case Schedule => 3
  }

  // ---------------------------------------------------------------- rules and the basis of an interval

  datatype Rule =
    | AiSystem | ToolAccess | SideEffectTools | AgenticExecution | UnapprovedSideEffects | SelfInitiated
    | NoRestrictionEvidence | PerActionApproval | ConflictingEvidence | DeclaredAboveCeiling
    | ApprovalBypassed | ApprovalGated | NoOversightEvidence
    | ScheduleTrigger | EventTrigger | InteractiveClient | NoInitiationEvidence

  const RULES: seq<Rule> := [
    AiSystem, ToolAccess, SideEffectTools, AgenticExecution, UnapprovedSideEffects, SelfInitiated,
    NoRestrictionEvidence, PerActionApproval, ConflictingEvidence, DeclaredAboveCeiling,
    ApprovalBypassed, ApprovalGated, NoOversightEvidence,
    ScheduleTrigger, EventTrigger, InteractiveClient, NoInitiationEvidence]

  function BoundOf(r: Rule): Bound {
    match r
    case AiSystem => Floor
    case ToolAccess => Floor
    case SideEffectTools => Floor
    case AgenticExecution => Floor
    case UnapprovedSideEffects => Floor
    case SelfInitiated => Floor
    case NoRestrictionEvidence => Ceiling
    case PerActionApproval => Ceiling
    case ConflictingEvidence => Ceiling
    case DeclaredAboveCeiling => Ceiling
    case ApprovalBypassed => OversightBound
    case ApprovalGated => OversightBound
    case NoOversightEvidence => OversightBound
    case ScheduleTrigger => InitiationBound
    case EventTrigger => InitiationBound
    case InteractiveClient => InitiationBound
    case NoInitiationEvidence => InitiationBound
  }

  datatype Value = Level(level: int) | OversightValue(oversight: Oversight) | InitiationValue(initiation: Initiation)

  // The order in which Python sorts the values of one bound: numbers, or words alphabetically.
  function SortKey(v: Value): int {
    match v
    case Level(n) => n
    case OversightValue(Bypassed) => 0
    case OversightValue(Gated) => 1
    case OversightValue(UnknownOversight) => 2
    case InitiationValue(Event) => 0
    case InitiationValue(Human) => 1
    case InitiationValue(Schedule) => 2
    case InitiationValue(UnknownInitiation) => 3
  }

  datatype Item = Item(bound: Bound, rule: Rule, value: Value)

  predicate IsLevel(n: int) {
    0 <= n <= MAX_LEVEL
  }

  predicate ValidItem(it: Item) {
    && it.bound == BoundOf(it.rule)
    && match it.bound
       case Floor => it.value.Level? && IsLevel(it.value.level)
       case Ceiling => it.value.Level? && IsLevel(it.value.level)
       case OversightBound => it.value.OversightValue?
       case InitiationBound => it.value.InitiationValue?
  }

  predicate ValidItems(items: seq<Item>) {
    forall it :: it in items ==> ValidItem(it)
  }

  // A dict comprehension keyed by rule: a later item replaces an earlier one.
  function LastValues(items: seq<Item>): map<Rule, Value> {
    if items == [] then map[]
    else LastValues(items[..|items| - 1])[items[|items| - 1].rule := items[|items| - 1].value]
  }

  function Listing(m: map<Rule, Value>, i: nat): seq<Item>
    requires i <= |RULES|
    decreases |RULES| - i
  {
    if i == |RULES| then []
    else
      var r := RULES[i];
      (if r in m then [Item(BoundOf(r), r, m[r])] else []) + Listing(m, i + 1)
  }

  function Cap(items: seq<Item>): seq<Item> {
    if |items| <= MAX_BASIS then items else items[..MAX_BASIS]
  }

  /** One item per rule, in report order, at most MAX_BASIS of them. */
  function Ordered(items: seq<Item>): seq<Item> {
    Cap(Listing(LastValues(items), 0))
  }

  lemma {:induction false} ListingItems(m: map<Rule, Value>, i: nat)
    requires i <= |RULES|
    ensures |Listing(m, i)| <= |RULES| - i
    ensures forall it :: it in Listing(m, i) <==>
                           it.rule in RULES[i..] && it.rule in m && it == Item(BoundOf(it.rule), it.rule, m[it.rule])
    decreases |RULES| - i
  {
    if i < |RULES| {
      ListingItems(m, i + 1);
      assert RULES[i..] == [RULES[i]] + RULES[i + 1..];
    }
  }

  // The position of a rule in the report order.
  function RuleOrder(r: Rule): (k: nat)
    ensures k < |RULES| && RULES[k] == r
  {
    match r
    case AiSystem => 0
    case ToolAccess => 1
    case SideEffectTools => 2
    case AgenticExecution => 3
    case UnapprovedSideEffects => 4
    case SelfInitiated => 5
    case NoRestrictionEvidence => 6
    case PerActionApproval => 7
    case ConflictingEvidence => 8
    case DeclaredAboveCeiling => 9
    case ApprovalBypassed => 10
    case ApprovalGated => 11
    case NoOversightEvidence => 12
    case ScheduleTrigger => 13
    case EventTrigger => 14
    case InteractiveClient => 15
    case NoInitiationEvidence => 16
  }

  /** The cap never drops a rule, so the basis is exactly the last value of each rule. */
  lemma OrderedKeepsEveryRule(items: seq<Item>)
    ensures |Ordered(items)| <= |RULES| <= MAX_BASIS
    ensures forall it :: it in Ordered(items) <==>
                           it.rule in LastValues(items) && it == Item(BoundOf(it.rule), it.rule, LastValues(items)[it.rule])
  {
    ListingItems(LastValues(items), 0);
    assert RULES[0..] == RULES;
    forall r ensures r in RULES { assert RULES[RuleOrder(r)] == r; }
  }

  lemma {:induction false} LastValuesFrom(items: seq<Item>)
    ensures forall r :: r in LastValues(items) ==> exists it :: it in items && it.rule == r && it.value == LastValues(items)[r]
    ensures forall it :: it in items ==> it.rule in LastValues(items)
    decreases |items|
  {
    if items != [] {
      var n := |items| - 1;
      LastValuesFrom(items[..n]);
      forall r | r in LastValues(items)
        ensures exists it :: it in items && it.rule == r && it.value == LastValues(items)[r]
      {
        if r == items[n].rule {
          assert items[n] in items;
        } else {
          var rest := items[..n];
          assert r in LastValues(rest);
          var it :| it in rest && it.rule == r && it.value == LastValues(rest)[r];
          assert it in items;
        }
      }
      assert items == items[..n] + [items[n]];
    }
  }

  lemma OrderedIsValid(items: seq<Item>)
    requires ValidItems(items)
    ensures ValidItems(Ordered(items)) && forall it :: it in Ordered(items) ==> it in items
  {
    OrderedKeepsEveryRule(items);
    LastValuesFrom(items);
    forall it | it in Ordered(items) ensures it in items {
      var r := it.rule;
      assert r in LastValues(items);
      var x :| x in items && x.rule == r && x.value == LastValues(items)[r];
      assert ValidItem(x);
    }
  }

  // No rule has two values.
  ghost predicate SingleValued(items: seq<Item>) {
    forall a, b :: a in items && b in items && a.rule == b.rule ==> a == b
  }

  lemma OrderedOfSingleValued(items: seq<Item>)
    requires ValidItems(items) && SingleValued(items)
    ensures forall it :: it in Ordered(items) <==> it in items
  {
    OrderedIsValid(items);
    OrderedKeepsEveryRule(items);
    LastValuesFrom(items);
    forall it | it in items ensures it in Ordered(items) {
      var r := it.rule;
      assert r in LastValues(items);
      var x :| x in items && x.rule == r && x.value == LastValues(items)[r];
      assert x == it && ValidItem(it);
    }
  }

  lemma OrderedIsSingleValued(items: seq<Item>)
    ensures SingleValued(Ordered(items))
  {
    OrderedKeepsEveryRule(items);
  }

  /** The basis depends only on which items there are. */
  lemma SameItemsSameOrder(a: seq<Item>, b: seq<Item>)
    requires SingleValued(a) && SingleValued(b) && forall it :: it in a <==> it in b
    ensures Ordered(a) == Ordered(b)
  {
    LastValuesFrom(a);
    LastValuesFrom(b);
    forall r | r in LastValues(a) ensures r in LastValues(b) && LastValues(b)[r] == LastValues(a)[r] {
      var x :| x in a && x.rule == r && x.value == LastValues(a)[r];
      var y :| y in b && y.rule == r && y.value == LastValues(b)[r];
    }
    forall r | r in LastValues(b) ensures r in LastValues(a) {
      var y :| y in b && y.rule == r && y.value == LastValues(b)[r];
    }
    assert LastValues(a) == LastValues(b);
  }
}
