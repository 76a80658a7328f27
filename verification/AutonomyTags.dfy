/** What adding tags to a finding does to its interval. The bounds are not monotone in tags: a tag that says the run starts
    by itself explains the `autonomous` capability, which then no longer shows that approval is bypassed. */
module AutonomyTags {
  import opened Autonomy
  import opened AutonomyClassifier

  function Tagged(f: Finding, tags: set<string>): Finding {
    f.(tags := f.tags + tags)
  }

  const TRIGGER_TAGS := {"scheduled", "event-triggered", "always-on"}

  // Bypass evidence other than the `autonomous` capability.
  predicate OtherBypass(f: Finding) {
    || Meets(f.tags, BYPASS_TAGS)
    || (exists s :: s in f.servers && !s.disabled && s.autoApproves)
    || (exists i :: i in f.posture && i == Issue("posture-unrestricted-shell", "permissions.allow"))
  }

  // The `autonomous` capability is all that shows a bypass, and nothing in f explains it otherwise.
  predicate RestsOnCapability(f: Finding) {
    && "autonomous" in f.capabilities && !f.kind.Workflow?
    && "heuristic.autonomy" !in f.signatures && "heuristic.scheduled-agent" !in f.signatures
    && TriggerInitiation(f).None? && "always-on" !in f.tags
    && !OtherBypass(f)
  }

  // The tags explain the capability and bring no bypass evidence of their own.
  predicate UndoesBypass(f: Finding, tags: set<string>) {
    RestsOnCapability(f) && Meets(tags, TRIGGER_TAGS) && !Meets(tags, BYPASS_TAGS)
  }

  // A level of the floor rests on the bypass: unapproved side effects, or a model loop behind a gate on every action.
  predicate BypassDecidesFloor(f: Finding) {
    || Meets(f.capabilities, UNAPPROVED)
    || (f.kind.Agent? && "tool-use" in f.capabilities && "multi-agent" !in f.capabilities && f.gate == Some(EveryAction))
  }

  lemma MeetsSum(a: set<string>, b: set<string>, c: set<string>)
    ensures Meets(a + b, c) <==> Meets(a, c) || Meets(b, c)
  {
    if Meets(a, c) { var x :| x in a && x in c; assert x in a + b; }
    if Meets(b, c) { var x :| x in b && x in c; assert x in a + b; }
  }

  lemma TriggerTagsAre(tags: set<string>)
    ensures Meets(tags, TRIGGER_TAGS) <==> "scheduled" in tags || "event-triggered" in tags || "always-on" in tags
  {
    assert "scheduled" in TRIGGER_TAGS && "event-triggered" in TRIGGER_TAGS && "always-on" in TRIGGER_TAGS;
  }

  lemma TaggedTrigger(f: Finding, tags: set<string>)
    ensures TriggerInitiation(f).Some? ==> TriggerInitiation(Tagged(f, tags)).Some?
    ensures TriggerInitiation(f).None? && "always-on" !in f.tags ==>
              ((TriggerInitiation(Tagged(f, tags)).Some? || "always-on" in Tagged(f, tags).tags) <==> Meets(tags, TRIGGER_TAGS))
    ensures InitiationRank(ObservedInitiation(f)) <= InitiationRank(ObservedInitiation(Tagged(f, tags)))
  {
    TriggerTagsAre(tags);
    hide Meets;
  }

  /** Bypass evidence is lost exactly when it rests on the capability alone and the tags explain that. */
  lemma BypassLostWhen(f: Finding, tags: set<string>)
    ensures BypassEvidence(f) && !BypassEvidence(Tagged(f, tags)) <==> UndoesBypass(f, tags)
  {
    MeetsSum(f.tags, tags, BYPASS_TAGS);
    TaggedTrigger(f, tags);
    hide Meets, TriggerInitiation;
  }

  lemma FloorOfInterval(f: Finding, bypassed: bool, initiation: Initiation)
    ensures Interval(f, bypassed, initiation).floor == FloorLevel(f, bypassed, initiation)
  {
    hide FloorItems, Highest, RawBasis, Ordered, FloorLevel;
    FloorIsLevel(f, bypassed, initiation);
  }

  // Adding tags while the same bypass evidence stands.
  lemma FloorGrows(f: Finding, tags: set<string>, b1: bool, b2: bool, i1: Initiation, i2: Initiation)
    requires (b1 ==> b2) && InitiationRank(i1) <= InitiationRank(i2)
    ensures FloorLevel(f, b1, i1) <= FloorLevel(Tagged(f, tags), b2, i2)
  {
    hide Meets;
  }

  lemma FloorFalls(f: Finding, tags: set<string>, i1: Initiation, i2: Initiation)
    ensures FloorLevel(Tagged(f, tags), false, i2) < FloorLevel(f, true, i1) ==> BypassDecidesFloor(f)
    ensures BypassDecidesFloor(f) && !f.kind.Workflow? ==> FloorLevel(Tagged(f, tags), false, i2) < FloorLevel(f, true, i1)
  {
    assert SIDE_EFFECTS <= UNAPPROVED;
    if Meets(f.capabilities, SIDE_EFFECTS) {
      var x :| x in f.capabilities && x in SIDE_EFFECTS;
      assert x in UNAPPROVED;
    }
    hide Meets;
  }

  lemma RaisesAgree(initiation: Option<Initiation>, x: Initiation, y: Initiation)
    requires InitiationRank(x) <= InitiationRank(y)
    ensures InitiationRank(Raise(initiation, x)) <= InitiationRank(Raise(initiation, y))
  {
  }

  /** Added tags lower the floor exactly when they take away the only bypass evidence and a level rests on it; whatever
      other reports contribute. In every other case the floor stays or rises. */
  lemma TagsLowerFloorWhen(f: Finding, tags: set<string>, bypassed: bool, initiation: Option<Initiation>)
    requires Applicable(f)
    ensures Classify(Tagged(f, tags), bypassed, initiation).value.floor < Classify(f, bypassed, initiation).value.floor <==>
            !bypassed && UndoesBypass(f, tags) && BypassDecidesFloor(f)
  {
    var g := Tagged(f, tags);
    var b1, b2 := bypassed || BypassEvidence(f), bypassed || BypassEvidence(g);
    var i1, i2 := Raise(initiation, ObservedInitiation(f)), Raise(initiation, ObservedInitiation(g));
    TaggedTrigger(f, tags);
    RaisesAgree(initiation, ObservedInitiation(f), ObservedInitiation(g));
    BypassLostWhen(f, tags);
    FloorOfInterval(f, b1, i1);
    FloorOfInterval(g, b2, i2);
    assert UndoesBypass(f, tags) ==> !f.kind.Workflow?;
    hide Interval, BypassEvidence, UndoesBypass, BypassDecidesFloor, FloorLevel, ObservedInitiation, Raise, TriggerInitiation;
    if b1 && !b2 {
      FloorFalls(f, tags, i1, i2);
    } else {
      FloorGrows(f, tags, b1, b2, i1, i2);
    }
  }

  /** The ceiling falls exactly when the tags take away the bypass that a gate on every action conflicted with. */
  lemma TagsLowerCeilingWhen(f: Finding, tags: set<string>, bypassed: bool, initiation: Option<Initiation>)
    requires Applicable(f)
    ensures Classify(Tagged(f, tags), bypassed, initiation).value.ceiling < Classify(f, bypassed, initiation).value.ceiling <==>
            !bypassed && UndoesBypass(f, tags) && f.gate == Some(EveryAction)
  {
    var g := Tagged(f, tags);
    var b1, b2 := bypassed || BypassEvidence(f), bypassed || BypassEvidence(g);
    var i1, i2 := Raise(initiation, ObservedInitiation(f)), Raise(initiation, ObservedInitiation(g));
    TaggedTrigger(f, tags);
    RaisesAgree(initiation, ObservedInitiation(f), ObservedInitiation(g));
    BypassLostWhen(f, tags);
    FloorIsLevel(f, b1, i1);
    FloorIsLevel(g, b2, i2);
    hide FloorItems, Highest, RawBasis, Ordered, BypassEvidence, UndoesBypass, ObservedInitiation, Raise, TriggerInitiation, Meets;
    if !(b1 && !b2) { FloorGrows(f, tags, b1, b2, i1, i2); }
  }

  /** Oversight narrows exactly when the tags take away the only bypass evidence, or say that an ungated run asks its user.
      Initiation never narrows. */
  lemma TagsAndOversight(f: Finding, tags: set<string>, bypassed: bool, initiation: Option<Initiation>)
    requires Applicable(f)
    ensures var x, y := Classify(f, bypassed, initiation).value, Classify(Tagged(f, tags), bypassed, initiation).value;
            && InitiationRank(x.initiation) <= InitiationRank(y.initiation)
            && (OversightRank(y.oversight) < OversightRank(x.oversight) <==>
                !bypassed && (UndoesBypass(f, tags)
                              || (!BypassEvidence(Tagged(f, tags)) && f.gate.None? && "asks-user" in tags && "asks-user" !in f.tags)))
  {
    var g := Tagged(f, tags);
    TaggedTrigger(f, tags);
    RaisesAgree(initiation, ObservedInitiation(f), ObservedInitiation(g));
    BypassLostWhen(f, tags);
    hide FloorItems, Highest, RawBasis, Ordered, BypassEvidence, UndoesBypass, ObservedInitiation, Raise, TriggerInitiation, CeilingOf;
  }

  /** Such a finding exists: an unattended app that runs code, once it is tagged as scheduled. */
  lemma TriggerTagLowersFloor() returns (f: Finding)
    ensures Applicable(f)
    ensures Classify(Tagged(f, {"scheduled"}), false, None).value.floor < Classify(f, false, None).value.floor
  {
    hide Interval;
    f := Finding(AiApp, false, "app", {"autonomous", "code-exec"}, {}, {}, [], [], None, false, "", {}, None, None, None);
    assert "code-exec" in f.capabilities && "code-exec" in UNAPPROVED;
    assert "scheduled" in {"scheduled"} && "scheduled" in TRIGGER_TAGS;
    TagsLowerFloorWhen(f, {"scheduled"}, false, None);
  }
}
