/** What a drift entry says: which way a bound of the autonomy interval moved, in the ranks the classifier gives it, and when
    a change is adverse. */
module DriftMeaning {
  import opened Ordering
  import opened Drift
  import A = Autonomy
  import C = AutonomyClassifier
  import Text

  // ---------------------------------------------------------------- autonomy, as a report shows it

  function OversightWord(o: A.Oversight): string {
    match o
    case Bypassed => "bypassed"
    case Gated => "gated"
    case UnknownOversight => "unknown"
  }

  function InitiationWord(i: A.Initiation): string {
    match i
    case Schedule => "schedule"
    case Event => "event"
    case Human => "human"
    case UnknownInitiation => "unknown"
  }

  // The value a report shows for one bound of a block.
  function Shown(b: C.Block, bound: A.Bound): Scalar {
    match bound
    case Floor => Number(b.floor)
    case Ceiling => Number(b.ceiling)
    case OversightBound => Scalar.Text(OversightWord(b.oversight))
    case InitiationBound => Scalar.Text(InitiationWord(b.initiation))
  }

  function BoundField(bound: A.Bound): ScalarField {
    match bound
    case Floor => AutonomyFloor
    case Ceiling => AutonomyCeiling
    case OversightBound => AutonomyOversight
    case InitiationBound => AutonomyInitiation
  }

  lemma RanksOfWords(f: ScalarField)
    ensures AutonomyRank(f, Scalar.Text("bypassed")) == 2 && AutonomyRank(f, Scalar.Text("unknown")) == 1
    ensures AutonomyRank(f, Scalar.Text("gated")) == 0 && AutonomyRank(f, Scalar.Text("human")) == 0
    ensures AutonomyRank(f, Scalar.Text("event")) == 2 && AutonomyRank(f, Scalar.Text("schedule")) == 3
  {
    var words := ["bypassed", "gated", "unknown", "schedule", "event", "human"];
    assert words[0][0] == 'b' && words[1][0] == 'g' && words[2][0] == 'u';
    assert words[3][0] == 's' && words[4][0] == 'e' && words[5][0] == 'h';
    assert forall i, j :: 0 <= i < j < |words| ==> words[i] != words[j] by {
      forall i, j | 0 <= i < j < |words| ensures words[i] != words[j] { assert words[i][0] != words[j][0]; }
    }
    assert words[0] == "bypassed" && words[1] == "gated" && words[2] == "unknown" && words[3] == "schedule";
  }

  lemma WordsAreThere()
    ensures forall o :: !Text.Blank(OversightWord(o))
    ensures forall i :: !Text.Blank(InitiationWord(i))
  {
    hide Text.Blank;
    forall o ensures !Text.Blank(OversightWord(o)) { FilledIsNotBlank(OversightWord(o)); }
    forall i ensures !Text.Blank(InitiationWord(i)) { FilledIsNotBlank(InitiationWord(i)); }
  }

  lemma WordsAreFilled(b: C.Block, bound: A.Bound)
    ensures Present(Shown(b, bound))
    ensures AutonomyRank(BoundField(bound), Shown(b, bound)) == C.Rank(b, bound)
  {
    WordsAreThere();
    RanksOfWords(BoundField(bound));
    assert AutonomyRank(BoundField(bound), Number(b.floor)) == b.floor && AutonomyRank(BoundField(bound), Number(b.ceiling)) == b.ceiling;
    hide Text.Blank, AutonomyRank;
  }

  lemma FilledIsNotBlank(s: string)
    requires s != "" && !Text.Space(s[0])
    ensures !Text.Blank(s)
  {
    assert Text.StripLeft(s) == s;
    StripRightKeepsFirst(s);
  }

  lemma {:induction false} StripRightKeepsFirst(s: string)
    requires s != "" && !Text.Space(s[0])
    ensures Text.StripRight(s) != ""
    decreases |s|
  {
    if Text.Space(s[|s| - 1]) { StripRightKeepsFirst(s[..|s| - 1]); }
  }

  /** When both observations have a block, a differing bound rose exactly when the classifier ranks the later value higher,
      and that is when it is adverse; otherwise it fell. */
  lemma BoundRoseMeans(x: C.Block, y: C.Block, bound: A.Bound, before: State, after: State, shownBefore: State, shownAfter: State)
    requires At(before, BoundField(bound)) == Shown(x, bound) && At(after, BoundField(bound)) == Shown(y, bound)
    ensures var es := ScalarDrift(BoundField(bound), before, after, shownBefore, shownAfter);
            && (es == [] <==> Shown(x, bound) == Shown(y, bound))
            && (forall e :: e in es ==>
                  && e.ScalarEntry? && e.cls.AutonomyDrift?
                  && (e.direction.Rose? || e.direction.Fell?)
                  && (e.direction.Rose? <==> C.Rank(y, bound) > C.Rank(x, bound))
                  && (e.adverse <==> e.direction.Rose?))
  {
    WordsAreFilled(x, bound);
    WordsAreFilled(y, bound);
    hide Present, AutonomyRank, Shown;
  }

  // ---------------------------------------------------------------- the other fields

  // A value that is there: not missing, and not text of white space only.
  ghost predicate There(v: Scalar) {
    !v.Absent? && !(v.Text? && forall i :: 0 <= i < |v.text| ==> Text.Space(v.text[i]))
  }

  lemma {:induction false} AllSpace(s: string)
    ensures Text.StripRight(s) == "" <==> forall i :: 0 <= i < |s| ==> Text.Space(s[i])
    decreases |s|
  {
    if s != "" {
      var n := |s| - 1;
      AllSpace(s[..n]);
      assert s == s[..n] + [s[n]];
    }
  }

  lemma {:induction false} BlankIsSpace(s: string)
    ensures Text.Blank(s) <==> forall i :: 0 <= i < |s| ==> Text.Space(s[i])
  {
    if s != "" && Text.Space(s[0]) {
      BlankIsSpace(s[1..]);
      assert s == [s[0]] + s[1..];
      assert forall i :: 0 <= i < |s| ==> s[i] == if i == 0 then s[0] else s[1..][i - 1];
    } else {
      AllSpace(s);
    }
  }

  ghost predicate IsAutonomy(f: ScalarField) {
    f.AutonomyFloor? || f.AutonomyCeiling? || f.AutonomyOversight? || f.AutonomyInitiation?
  }

  /** A differing field was set, was cleared, or changed; a bound of the interval rose or fell instead of changing. */
  lemma DirectionMeans(f: ScalarField, before: Scalar, after: Scalar)
    ensures var d := DirectionOf(f, before, after);
            && (d.Set? <==> !There(before))
            && (d.Cleared? <==> There(before) && !There(after))
            && (d.Changed? <==> There(before) && There(after) && !IsAutonomy(f))
            && (d.Rose? <==> There(before) && There(after) && IsAutonomy(f) && AutonomyRank(f, after) > AutonomyRank(f, before))
            && (d.Fell? <==> There(before) && There(after) && IsAutonomy(f) && AutonomyRank(f, after) <= AutonomyRank(f, before))
  {
    if before.Text? { BlankIsSpace(before.text); }
    if after.Text? { BlankIsSpace(after.text); }
    hide Text.Blank, AutonomyRank;
  }

  /** When a changed field counts against the finding. */
  lemma AdverseMeans(f: ScalarField, before: Scalar, after: Scalar)
    ensures Adverse(f, before, after, DirectionOf(f, before, after)) <==>
            || f.KindField? || f.ResourceType?
            || (IsAutonomy(f) && DirectionOf(f, before, after).Rose?)
            || ((f.ToolHash? || f.RegistryMatch?) && There(before))
            || (f.Owner? && There(before) && !There(after))
            || (f.Shadow? && after == Flag(true))
            || (f.Reconciliation? && (after == Scalar.Text("observed-not-registered") || before == Scalar.Text("registered-and-observed")))
  {
    DirectionMeans(f, before, after);
    hide DirectionOf, There;
  }

  // ---------------------------------------------------------------- lists

  predicate Mitigates(t: string) {
    || t == "disabled" || t == "inactive" || t == "suspended" || t == "expired" || t == "asks-user" || t == "test-code-only"
    || t == "docs-only" || t == "example-code-only" || t == "generated-code-only" || t == "pending-request"
    || t == "managed-secret" || t == "mcp-registry-published"
  }

  // The elements of a list that count towards one class: the understatement tag is governance, all else capability.
  predicate Belongs(f: ListField, cls: DriftClass, t: string) {
    || (cls.Capability? && !(f.Tags? && t == "autonomy-understated"))
    || (cls.Governance? && f.Tags? && t == "autonomy-understated")
  }

  lemma PartMeans(s: State, f: ListField, cls: DriftClass, t: string)
    ensures t in Part(s, f, cls) <==> t in Items(s, f) && Belongs(f, cls, t)
  {
  }

  // t is new, or gone, in the part of a list that belongs to one class.
  ghost predicate Gained(f: ListField, cls: DriftClass, before: State, after: State, t: string) {
    t in Items(after, f) && t !in Items(before, f) && Belongs(f, cls, t)
  }

  /** A list has one entry per class with a difference: what was added, removed or replaced, adverse when something was
      added, where tags that mitigate count the other way round. */
  lemma ListEntryMeans(f: ListField, cls: DriftClass, before: State, after: State, shownBefore: State, shownAfter: State)
    ensures var es := PartDrift(f, cls, before, after, shownBefore, shownAfter);
            && |es| <= 1
            && (es == [] <==> forall t :: !Gained(f, cls, before, after, t) && !Gained(f, cls, after, before, t))
            && (es != [] ==>
                  && es[0].ListEntry?
                  && (es[0].direction.Added? <==> forall t :: !Gained(f, cls, after, before, t))
                  && (es[0].direction.Removed? <==> forall t :: !Gained(f, cls, before, after, t))
                  && (es[0].direction.Added? || es[0].direction.Removed? || es[0].direction.Replaced?)
                  && (es[0].adverse <==>
                      || (exists t :: Gained(f, cls, before, after, t) && !(f.Tags? && Mitigates(t)))
                      || (f.Tags? && exists t :: Gained(f, cls, after, before, t) && Mitigates(t)))
                  && (forall t :: t in es[0].added <==> Gained(f, cls, shownBefore, shownAfter, t))
                  && (forall t :: t in es[0].removed <==> Gained(f, cls, shownAfter, shownBefore, t)))
  {
    GainedAre(f, cls, before, after);
    GainedAre(f, cls, after, before);
    GainedAre(f, cls, shownBefore, shownAfter);
    GainedAre(f, cls, shownAfter, shownBefore);
    var added, removed := Part(after, f, cls) - Part(before, f, cls), Part(before, f, cls) - Part(after, f, cls);
    WidensMeans(f, added, removed);
    hide Part, Items, Belongs, Sorted, Gained, Widens, Mitigates;
    if added != {} { var t :| t in added; assert Gained(f, cls, before, after, t); }
    if removed != {} { var t :| t in removed; assert Gained(f, cls, after, before, t); }
  }

  lemma GainedAre(f: ListField, cls: DriftClass, before: State, after: State)
    ensures forall t :: t in Part(after, f, cls) - Part(before, f, cls) <==> Gained(f, cls, before, after, t)
  {
    forall s, t ensures t in Part(s, f, cls) <==> t in Items(s, f) && Belongs(f, cls, t) { PartMeans(s, f, cls, t); }
    hide Part, Items, Belongs;
  }

  lemma WidensMeans(f: ListField, added: set<string>, removed: set<string>)
    ensures Widens(f, added, removed) <==>
            || (exists t :: t in added && !(f.Tags? && Mitigates(t))) || (f.Tags? && exists t :: t in removed && Mitigates(t))
  {
    forall t ensures t in MITIGATING_TAGS <==> Mitigates(t) { }
    hide Mitigates;
    if t :| t in added && !(f.Tags? && Mitigates(t)) {
      if f.Tags? { assert t in added - MITIGATING_TAGS; }
    }
    if t :| t in removed && Mitigates(t) { assert t in removed * MITIGATING_TAGS; }
  }

  // ---------------------------------------------------------------- the order of the entries

  ghost predicate EarlierClass(a: DriftClass, b: DriftClass) {
    exists k, m :: 0 <= k < m < |CLASSES| && CLASSES[k] == a && CLASSES[m] == b
  }

  lemma NotAfterMeans(a: Entry, b: Entry)
    requires NotAfter(a, b)
    ensures EarlierClass(a.cls, b.cls)
            || (a.cls == b.cls && (NameOf(a.field) == NameOf(b.field) || Less(NameOf(a.field), NameOf(b.field))))
  {
    hide NameOf, Less;
    assert CLASSES[ClassIndex(a.cls)] == a.cls && CLASSES[ClassIndex(b.cls)] == b.cls;
  }

  /** Entries come in the order of their classes: inventory, capability, autonomy, governance, coverage. Within a class they
      come in the alphabetical order of their field names. */
  lemma EntriesAreOrdered(before: State, after: State, shownBefore: State, shownAfter: State)
    ensures var es := DriftOf(before, after, shownBefore, shownAfter);
            forall i, j :: 0 <= i < j < |es| ==>
              || EarlierClass(es[i].cls, es[j].cls)
              || (es[i].cls == es[j].cls && (NameOf(es[i].field) == NameOf(es[j].field) || Less(NameOf(es[i].field), NameOf(es[j].field))))
    ensures CLASSES == [Inventory, Capability, AutonomyDrift, Governance, Coverage]
  {
    hide NameOf, Less, ScalarDrifts, ListDrifts, SortEntries, NotAfter, EarlierClass;
    SortIsInOrder(ScalarDrifts(SCALARS, before, after, shownBefore, shownAfter)
                  + ListDrifts(LISTS, before, after, shownBefore, shownAfter));
    var es := DriftOf(before, after, shownBefore, shownAfter);
    forall i, j | 0 <= i < j < |es|
      ensures EarlierClass(es[i].cls, es[j].cls)
              || (es[i].cls == es[j].cls && (NameOf(es[i].field) == NameOf(es[j].field) || Less(NameOf(es[i].field), NameOf(es[j].field))))
    {
      NotAfterMeans(es[i], es[j]);
    }
  }
}
