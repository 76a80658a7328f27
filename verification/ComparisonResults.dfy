/** The result of a comparison: conservation of findings, and the count-only path that must agree with it
    (compare_reports, drift_counts and _drift_totals in shadowscan/comparison.py). */
module ComparisonResults {
  import opened Ordering
  import opened Drift
  import opened Comparison

  // ---------------------------------------------------------------- totals per drift class

  datatype Totals = Totals(counts: map<DriftClass, nat>, adverse: map<DriftClass, bool>)

  predicate HasClass(drift: seq<Entry>, c: DriftClass) {
    exists e :: e in drift && e.cls == c
  }

  predicate HasAdverse(drift: seq<Entry>, c: DriftClass) {
    exists e :: e in drift && e.cls == c && e.adverse
  }

  function CountIn(drifts: seq<seq<Entry>>, c: DriftClass): nat {
    if drifts == [] then 0
    else CountIn(drifts[..|drifts| - 1], c) + (if HasClass(drifts[|drifts| - 1], c) then 1 else 0)
  }

  predicate AnyAdverse(drifts: seq<seq<Entry>>, c: DriftClass) {
    exists d :: d in drifts && HasAdverse(d, c)
  }

  function CountOf(added: nat, resolved: nat, drifts: seq<seq<Entry>>, reasons: nat, c: DriftClass): nat {
    match c
    case Inventory => added + resolved + CountIn(drifts, c)
    case Coverage => reasons
    case _ => CountIn(drifts, c)
  }

  predicate AdverseOf(added: nat, drifts: seq<seq<Entry>>, reasons: nat, c: DriftClass) {
    match c
    case Inventory => added > 0 || AnyAdverse(drifts, c)
    case Coverage => reasons > 0
    case _ => AnyAdverse(drifts, c)
  }

  function TotalsOf(added: nat, resolved: nat, drifts: seq<seq<Entry>>, reasons: nat): Totals {
    Totals(map c: DriftClass | c in CLASSES :: CountOf(added, resolved, drifts, reasons, c),
           map c: DriftClass | c in CLASSES :: AdverseOf(added, drifts, reasons, c))
  }

  lemma ClassIsListed(c: DriftClass)
    ensures c in CLASSES
  {
    match c
    case Inventory => assert CLASSES[0] == c;
    case Capability => assert CLASSES[1] == c;
    case AutonomyDrift => assert CLASSES[2] == c;
    case Governance => assert CLASSES[3] == c;
    case Coverage => assert CLASSES[4] == c;
  }

  // The running totals after some of the changes.
  ghost predicate Tallied(counts: map<DriftClass, nat>, adverse: map<DriftClass, bool>, added: nat, resolved: nat,
                          drifts: seq<seq<Entry>>) {
    && (forall c: DriftClass :: c in counts && c in adverse)
    && (forall c: DriftClass :: counts[c] == (if c.Inventory? then added + resolved else 0) + CountIn(drifts, c))
    && (forall c: DriftClass :: adverse[c] <==> (c.Inventory? && added > 0) || AnyAdverse(drifts, c))
  }

  /** _drift_totals: each change counts once for every class it has an entry of. */
  method DriftTotals(added: nat, resolved: nat, drifts: seq<seq<Entry>>, reasons: nat) returns (t: Totals)
    ensures t == TotalsOf(added, resolved, drifts, reasons)
  {
    var counts: map<DriftClass, nat> := map c: DriftClass | c in CLASSES :: 0;
    var adverse: map<DriftClass, bool> := map c: DriftClass | c in CLASSES :: false;
    counts := counts[Inventory := added + resolved];
    adverse := adverse[Inventory := added > 0];
    forall c: DriftClass ensures c in CLASSES { ClassIsListed(c); }
    assert Tallied(counts, adverse, added, resolved, []);
    for n := 0 to |drifts|
      invariant Tallied(counts, adverse, added, resolved, drifts[..n])
    {
      ghost var before, judged := counts, adverse;
      counts, adverse := CountDrift(drifts[n], counts, adverse);
      TalliedMore(before, judged, counts, adverse, added, resolved, drifts, n);
      hide Tallied, HasClass, HasAdverse;
    }
    assert drifts[..|drifts|] == drifts;
    t := Totals(counts[Coverage := reasons], adverse[Coverage := reasons > 0]);
    TalliedIsTotal(counts, adverse, added, resolved, drifts, reasons);
  }

  lemma TalliedMore(counts: map<DriftClass, nat>, adverse: map<DriftClass, bool>,
                    counted: map<DriftClass, nat>, judged: map<DriftClass, bool>,
                    added: nat, resolved: nat, drifts: seq<seq<Entry>>, n: nat)
    requires n < |drifts| && Tallied(counts, adverse, added, resolved, drifts[..n])
    requires forall c: DriftClass :: c in counted && counted[c] == counts[c] + (if HasClass(drifts[n], c) then 1 else 0)
    requires forall c: DriftClass :: c in judged && (judged[c] <==> adverse[c] || HasAdverse(drifts[n], c))
    ensures Tallied(counted, judged, added, resolved, drifts[..n + 1])
  {
    hide HasClass, HasAdverse, CountIn, AnyAdverse;
    forall c: DriftClass
      ensures CountIn(drifts[..n + 1], c) == CountIn(drifts[..n], c) + (if HasClass(drifts[n], c) then 1 else 0)
      ensures AnyAdverse(drifts[..n + 1], c) <==> AnyAdverse(drifts[..n], c) || HasAdverse(drifts[n], c)
    {
      OneMoreDrift(drifts, n, c);
    }
  }

  lemma TalliedIsTotal(counts: map<DriftClass, nat>, adverse: map<DriftClass, bool>, added: nat, resolved: nat,
                       drifts: seq<seq<Entry>>, reasons: nat)
    requires Tallied(counts, adverse, added, resolved, drifts)
    ensures Totals(counts[Coverage := reasons], adverse[Coverage := reasons > 0]) == TotalsOf(added, resolved, drifts, reasons)
  {
    hide CountIn, AnyAdverse;
    forall c: DriftClass
      ensures counts[Coverage := reasons][c] == CountOf(added, resolved, drifts, reasons, c)
      ensures adverse[Coverage := reasons > 0][c] == AdverseOf(added, drifts, reasons, c)
    { }
    hide CountOf, AdverseOf;
    TotalsAre(counts[Coverage := reasons], adverse[Coverage := reasons > 0], added, resolved, drifts, reasons);
  }

  lemma TotalsAre(counts: map<DriftClass, nat>, adverse: map<DriftClass, bool>, added: nat, resolved: nat,
                  drifts: seq<seq<Entry>>, reasons: nat)
    requires forall c: DriftClass :: c in counts && counts[c] == CountOf(added, resolved, drifts, reasons, c)
    requires forall c: DriftClass :: c in adverse && adverse[c] == AdverseOf(added, drifts, reasons, c)
    ensures Totals(counts, adverse) == TotalsOf(added, resolved, drifts, reasons)
  {
    hide CountOf, AdverseOf;
    forall c: DriftClass ensures c in CLASSES { ClassIsListed(c); }
    var t := TotalsOf(added, resolved, drifts, reasons);
    assert t.counts == counts;
    assert t.adverse == adverse;
  }

  method CountDrift(drift: seq<Entry>, counts: map<DriftClass, nat>, adverse: map<DriftClass, bool>)
    returns (counted: map<DriftClass, nat>, judged: map<DriftClass, bool>)
    requires forall c: DriftClass :: c in counts && c in adverse
    ensures forall c: DriftClass :: c in counted && counted[c] == counts[c] + (if HasClass(drift, c) then 1 else 0)
    ensures forall c: DriftClass :: c in judged && (judged[c] <==> adverse[c] || HasAdverse(drift, c))
  {
    hide HasClass, HasAdverse;
    counted, judged := counts, adverse;
    for k := 0 to |CLASSES|
      invariant forall c: DriftClass :: c in counted && c in judged
      invariant forall c: DriftClass ::
                  counted[c] == counts[c] + (if ClassIndex(c) < k && HasClass(drift, c) then 1 else 0)
      invariant forall c: DriftClass :: judged[c] <==> adverse[c] || (ClassIndex(c) < k && HasAdverse(drift, c))
    {
      var c := CLASSES[k];
      assert ClassIndex(c) == k && forall d: DriftClass :: ClassIndex(d) == k ==> d == c;
      if HasClass(drift, c) {
        counted := counted[c := counted[c] + 1];
      }
      judged := judged[c := judged[c] || HasAdverse(drift, c)];
      hide ClassIndex;
    }
    assert forall c: DriftClass :: ClassIndex(c) < |CLASSES|;
  }

  lemma OneMoreDrift(drifts: seq<seq<Entry>>, n: nat, c: DriftClass)
    requires n < |drifts|
    ensures CountIn(drifts[..n + 1], c) == CountIn(drifts[..n], c) + (if HasClass(drifts[n], c) then 1 else 0)
    ensures AnyAdverse(drifts[..n + 1], c) <==> AnyAdverse(drifts[..n], c) || HasAdverse(drifts[n], c)
  {
    hide HasClass, HasAdverse;
    assert drifts[..n + 1][..n] == drifts[..n];
    assert drifts[..n + 1] == drifts[..n] + [drifts[n]];
  }

  // ---------------------------------------------------------------- the full comparison

  datatype Change = Change(id: string, fields: set<Field>, drift: seq<Entry>)

  datatype Compared = Compared(
    reasons: seq<Reason>, added: seq<string>, resolved: seq<string>, unknown: seq<string>, changed: seq<Change>,
    localBaseline: seq<string>, localCurrent: seq<string>, totals: Totals)

  function ChangedFields(before: State, after: State): set<Field> {
    (set f | f in SCALARS && At(before, f) != At(after, f) :: ScalarIn(f))
    + (set f | f in LISTS && Items(before, f) != Items(after, f) :: ListIn(f))
    + (if before.riskScore != after.riskScore then {RiskScore} else {})
    + (if before.riskLevel != after.riskLevel then {RiskLevel} else {})
    + (if before.riskFactors != after.riskFactors then {RiskFactors} else {})
  }

  /** A change lists exactly the fields that differ, so the full path and the count path see the same changes. */
  lemma ChangedFieldsAre(before: State, after: State)
    ensures forall f :: f in ChangedFields(before, after) <==> Differs(before, after, f)
    ensures ChangedFields(before, after) == {} <==> before == after
  {
    forall f: ScalarField ensures f in SCALARS { ScalarIsListed(f); }
    forall f: ListField ensures f in LISTS { ListIsListed(f); }
    StatesDifferInAField(before, after);
    hide At, Items;
    forall f ensures f in ChangedFields(before, after) <==> Differs(before, after, f) { }
    hide ChangedFields, Differs;
    if before != after {
      var f :| Differs(before, after, f);
      assert f in ChangedFields(before, after);
    }
  }

  predicate Publishable(i: Index) {
    forall id :: id in i ==> i[id].exported.Published?
  }

  ghost predicate States(i: Index) {
    forall id :: id in i ==> i[id].state.Some?
  }

  function ChangeOf(b: Record, c: Record): (r: Option<seq<Change>>)
    requires b.state.Some? && c.state.Some? && b.exported.Published? && c.exported.Published?
  {
    var before, after := b.state.value, c.state.value;
    if ChangedFields(before, after) == {} then Some([])
    else if b.exported.state.None? || c.exported.state.None? then None
    else Some([Change(b.id, ChangedFields(before, after),
                      DriftOf(before, after, b.exported.state.value, c.exported.state.value))])
  }

  function Changes(b: Index, c: Index, ids: seq<string>): Option<seq<Change>>
    requires forall id :: id in ids ==> id in b && id in c
    requires States(b) && States(c) && Publishable(b) && Publishable(c)
  {
    if ids == [] then Some([])
    else
      var n := |ids| - 1;
      var rest := Changes(b, c, ids[..n]);
      var last := ChangeOf(b[ids[n]], c[ids[n]]);
      if rest.Some? && last.Some? then Some(rest.value + last.value) else None
  }

  function Drifts(changes: seq<Change>): seq<seq<Entry>> {
    seq(|changes|, i requires 0 <= i < |changes| => changes[i].drift)
  }

  // The ids of the findings both reports have, in order.
  function Common(b: Index, c: Index): (r: seq<string>)
    ensures forall id :: id in r <==> id in b && id in c
  {
    Sorted(b.Keys * c.Keys)
  }

  function Missing(b: Index, c: Index): seq<string> {
    Sorted(b.Keys - c.Keys - LocalIds(b, c))
  }

  function Comparing(baseline: Report, current: Report, b: Index, c: Index, maxDays: Option<int>, now: int): Option<Compared>
    requires baseline.findings.Some? && current.findings.Some? && States(b) && States(c)
  {
    if !Publishable(b) || !Publishable(c) || !AgeLimitOk(maxDays) then None
    else
      var reasons := Reasons(baseline, current, b, c, maxDays, now);
      var missing, added := Missing(b, c), Missing(c, b);
      var changes := Changes(b, c, Common(b, c));
      if changes.None? then None
      else
        var resolved := if reasons == [] then missing else [];
        Some(Compared(reasons, added, resolved, if reasons == [] then [] else missing, changes.value,
                      Sorted(LocalIds(b, c)), Sorted(LocalIds(c, b)),
                      TotalsOf(|added|, |resolved|, Drifts(changes.value), |reasons|)))
  }

  lemma FindingsHaveStates(r: Report)
    requires FindingsOf(r).Some?
    ensures r.findings.Some? && States(FindingsOf(r).value)
  {
    IndexedHolds(r.findings.value);
  }

  function Compare(baseline: Report, current: Report, maxDays: Option<int>, now: int): Option<Compared> {
    var b, c := FindingsOf(baseline), FindingsOf(current);
    if b.None? || c.None? then None
    else
      FindingsHaveStates(baseline);
      FindingsHaveStates(current);
      Comparing(baseline, current, b.value, c.value, maxDays, now)
  }

  method CompareReports(baseline: Report, current: Report, maxDays: Option<int>, now: int) returns (r: Option<Compared>)
    ensures r == Compare(baseline, current, maxDays, now)
  {
    hide TotalsOf, Reasons, DriftOf, ChangedFields, Sorted, LocalIds, Common, Missing, ChangeOf;
    var readB := ReadFindings(baseline);
    var readC := ReadFindings(current);
    if readB.None? || readC.None? {
      return None;
    }
    var b, c := readB.value, readC.value;
    FindingsHaveStates(baseline);
    FindingsHaveStates(current);
    if !Publishable(b) || !Publishable(c) || !AgeLimitOk(maxDays) {
      return None;
    }
    var reasons := Reasons(baseline, current, b, c, maxDays, now);
    var missing := Missing(b, c);
    var ids := Common(b, c);
    var changes: seq<Change> := [];
    for n := 0 to |ids|
      invariant Changes(b, c, ids[..n]) == Some(changes)
    {
      assert ids[..n + 1][..n] == ids[..n];
      var change := ChangeOf(b[ids[n]], c[ids[n]]);
      if change.None? {
        StaysNone(b, c, ids, n + 1);
        return None;
      }
      changes := changes + change.value;
    }
    assert ids[..|ids|] == ids;
    var added := Missing(c, b);
    var resolved := if reasons != [] then [] else missing;
    var totals := DriftTotals(|added|, |resolved|, Drifts(changes), |reasons|);
    r := Some(Compared(reasons, added, resolved, if reasons != [] then missing else [], changes,
                       Sorted(LocalIds(b, c)), Sorted(LocalIds(c, b)), totals));
  }

  lemma {:induction false} StaysNone(b: Index, c: Index, ids: seq<string>, n: nat)
    requires forall id :: id in ids ==> id in b && id in c
    requires States(b) && States(c) && Publishable(b) && Publishable(c)
    requires n <= |ids| && Changes(b, c, ids[..n]).None?
    ensures Changes(b, c, ids).None?
    decreases |ids| - n
  {
    hide ChangeOf;
    if n == |ids| {
      assert ids[..n] == ids;
    } else {
      assert ids[..n + 1][..n] == ids[..n];
      StaysNone(b, c, ids, n + 1);
    }
  }

  // ---------------------------------------------------------------- the count-only path

  datatype Counts = Counts(reasons: seq<Reason>, added: nat, resolved: nat, unknown: nat, changed: nat, totals: Totals)

  function OwnDrift(b: Record, c: Record): seq<seq<Entry>>
    requires b.state.Some? && c.state.Some?
  {
    var before, after := b.state.value, c.state.value;
    if before == after then [] else [DriftOf(before, after, before, after)]
  }

  function OwnDrifts(b: Index, c: Index, ids: seq<string>): seq<seq<Entry>>
    requires forall id :: id in ids ==> id in b && id in c
    requires States(b) && States(c)
  {
    if ids == [] then []
    else OwnDrifts(b, c, ids[..|ids| - 1]) + OwnDrift(b[ids[|ids| - 1]], c[ids[|ids| - 1]])
  }

  function Counting(baseline: Report, current: Report, b: Index, c: Index, maxDays: Option<int>, now: int): Option<Counts>
    requires baseline.findings.Some? && current.findings.Some? && States(b) && States(c)
  {
    if !AgeLimitOk(maxDays) then None
    else
      var reasons := Reasons(baseline, current, b, c, maxDays, now);
      var missing, added := |Missing(b, c)|, |Missing(c, b)|;
      var drifts := OwnDrifts(b, c, Common(b, c));
      var resolved := if reasons == [] then missing else 0;
      Some(Counts(reasons, added, resolved, if reasons == [] then 0 else missing, |drifts|,
                  TotalsOf(added, resolved, drifts, |reasons|)))
  }

  function CountOnly(baseline: Report, current: Report, maxDays: Option<int>, now: int): Option<Counts> {
    var b, c := FindingsOf(baseline), FindingsOf(current);
    if b.None? || c.None? then None
    else
      FindingsHaveStates(baseline);
      FindingsHaveStates(current);
      Counting(baseline, current, b.value, c.value, maxDays, now)
  }

  method DriftCounts(baseline: Report, current: Report, maxDays: Option<int>, now: int) returns (r: Option<Counts>)
    ensures r == CountOnly(baseline, current, maxDays, now)
  {
    hide TotalsOf, Reasons, DriftOf, Sorted, LocalIds, Common, Missing;
    var readB := ReadFindings(baseline);
    var readC := ReadFindings(current);
    if readB.None? || readC.None? {
      return None;
    }
    var b, c := readB.value, readC.value;
    FindingsHaveStates(baseline);
    FindingsHaveStates(current);
    if !AgeLimitOk(maxDays) {
      return None;
    }
    var reasons := Reasons(baseline, current, b, c, maxDays, now);
    var missing, added := |Missing(b, c)|, |Missing(c, b)|;
    var ids := Common(b, c);
    var drifts: seq<seq<Entry>> := [];
    for n := 0 to |ids|
      invariant drifts == OwnDrifts(b, c, ids[..n])
    {
      assert ids[..n + 1][..n] == ids[..n];
      var before, after := b[ids[n]].state.value, c[ids[n]].state.value;
      if before != after {
        var drift := DriftEntries(before, after, before, after);
        drifts := drifts + [drift];
      }
    }
    assert ids[..|ids|] == ids;
    var resolved := if reasons != [] then 0 else missing;
    var totals := DriftTotals(added, resolved, drifts, |reasons|);
    r := Some(Counts(reasons, added, resolved, if reasons != [] then missing else 0, |drifts|, totals));
  }

  // ---------------------------------------------------------------- the two paths agree

  ghost predicate SameClasses(d: seq<Entry>, e: seq<Entry>) {
    forall c: DriftClass :: (HasClass(d, c) <==> HasClass(e, c)) && (HasAdverse(d, c) <==> HasAdverse(e, c))
  }

  // Every entry of d has an entry of e with the same verdict.
  ghost predicate Verdicts(d: seq<Entry>, e: seq<Entry>) {
    forall x :: x in d ==> exists y :: y in e && SameVerdict(x, y)
  }

  lemma VerdictsAgree(before: State, after: State, sb: State, sa: State, tb: State, ta: State)
    ensures Verdicts(DriftOf(before, after, sb, sa), DriftOf(before, after, tb, ta))
  {
    hide DriftOf, SameVerdict;
    forall x | x in DriftOf(before, after, sb, sa) ensures exists y :: y in DriftOf(before, after, tb, ta) && SameVerdict(x, y) {
      SameVerdictFor(before, after, sb, sa, tb, ta, x);
    }
  }

  lemma ShownDriftHasSameClasses(before: State, after: State, sb: State, sa: State)
    ensures SameClasses(DriftOf(before, after, sb, sa), DriftOf(before, after, before, after))
  {
    hide DriftOf, HasClass, HasAdverse, Verdicts;
    var d, e := DriftOf(before, after, sb, sa), DriftOf(before, after, before, after);
    VerdictsAgree(before, after, sb, sa, before, after);
    VerdictsAgree(before, after, before, after, sb, sa);
    forall c: DriftClass ensures (HasClass(d, c) <==> HasClass(e, c)) && (HasAdverse(d, c) <==> HasAdverse(e, c)) {
      ClassesCarryOver(d, e, c);
      ClassesCarryOver(e, d, c);
    }
  }

  lemma ClassesCarryOver(d: seq<Entry>, e: seq<Entry>, c: DriftClass)
    requires Verdicts(d, e)
    ensures (HasClass(d, c) ==> HasClass(e, c)) && (HasAdverse(d, c) ==> HasAdverse(e, c))
  {
  }

  ghost predicate Alike(a: seq<seq<Entry>>, b: seq<seq<Entry>>) {
    |a| == |b| && forall i :: 0 <= i < |a| ==> SameClasses(a[i], b[i])
  }

  lemma {:induction false} AlikeCounts(a: seq<seq<Entry>>, b: seq<seq<Entry>>, c: DriftClass)
    requires Alike(a, b)
    ensures CountIn(a, c) == CountIn(b, c) && (AnyAdverse(a, c) <==> AnyAdverse(b, c))
    decreases |a|
  {
    if a != [] {
      var n := |a| - 1;
      AlikeCounts(a[..n], b[..n], c);
      assert SameClasses(a[n], b[n]);
      OneMoreDrift(a, n, c);
      OneMoreDrift(b, n, c);
      assert a[..n + 1] == a && b[..n + 1] == b;
      hide CountIn, AnyAdverse, HasClass, HasAdverse;
    }
  }

  lemma AlikeTotals(added: nat, resolved: nat, a: seq<seq<Entry>>, b: seq<seq<Entry>>, reasons: nat)
    requires Alike(a, b)
    ensures TotalsOf(added, resolved, a, reasons) == TotalsOf(added, resolved, b, reasons)
  {
    forall c: DriftClass ensures CountIn(a, c) == CountIn(b, c) && (AnyAdverse(a, c) <==> AnyAdverse(b, c)) {
      AlikeCounts(a, b, c);
    }
    hide CountIn, AnyAdverse, Alike;
    forall c: DriftClass
      ensures CountOf(added, resolved, a, reasons, c) == CountOf(added, resolved, b, reasons, c)
      ensures AdverseOf(added, a, reasons, c) == AdverseOf(added, b, reasons, c)
    { }
    hide CountOf, AdverseOf;
  }

  lemma ChangeIsAlike(b: Record, c: Record)
    requires b.state.Some? && c.state.Some? && b.exported.Published? && c.exported.Published?
    requires ChangeOf(b, c).Some?
    ensures Alike(Drifts(ChangeOf(b, c).value), OwnDrift(b, c))
  {
    var before, after := b.state.value, c.state.value;
    ChangedFieldsAre(before, after);
    if before != after {
      ShownDriftHasSameClasses(before, after, b.exported.state.value, c.exported.state.value);
    }
    hide DriftOf, ChangedFields, SameClasses;
  }

  lemma AlikeAppend(a: seq<Change>, b: seq<Change>, x: seq<seq<Entry>>, y: seq<seq<Entry>>)
    requires Alike(Drifts(a), x) && Alike(Drifts(b), y)
    ensures Alike(Drifts(a + b), x + y)
  {
    hide SameClasses;
    assert Drifts(a + b) == Drifts(a) + Drifts(b);
  }

  lemma {:induction false} ChangesAreAlike(b: Index, c: Index, ids: seq<string>)
    requires forall id :: id in ids ==> id in b && id in c
    requires States(b) && States(c) && Publishable(b) && Publishable(c)
    requires Changes(b, c, ids).Some?
    ensures Alike(Drifts(Changes(b, c, ids).value), OwnDrifts(b, c, ids))
    decreases |ids|
  {
    hide ChangeOf, OwnDrift, Alike;
    if ids == [] {
      assert Alike([], []) by { NothingIsAlike(); }
      assert Drifts([]) == [];
    } else {
      var n := |ids| - 1;
      ChangesAreAlike(b, c, ids[..n]);
      var x, y := b[ids[n]], c[ids[n]];
      ChangeIsAlike(x, y);
      AlikeAppend(Changes(b, c, ids[..n]).value, ChangeOf(x, y).value, OwnDrifts(b, c, ids[..n]), OwnDrift(x, y));
    }
  }

  lemma NothingIsAlike()
    ensures Alike([], [])
  {
  }

  /** Whenever the full comparison returns, the count-only path returns its reasons, counts, class totals and adverse
      flags. */
  lemma CountsAgree(baseline: Report, current: Report, maxDays: Option<int>, now: int)
    requires Compare(baseline, current, maxDays, now).Some?
    ensures var full := Compare(baseline, current, maxDays, now).value;
            CountOnly(baseline, current, maxDays, now) ==
            Some(Counts(full.reasons, |full.added|, |full.resolved|, |full.unknown|, |full.changed|, full.totals))
  {
    hide TotalsOf, Reasons, Changes, OwnDrifts, Missing, FindingsOf;
    FindingsHaveStates(baseline);
    FindingsHaveStates(current);
    var b, c := FindingsOf(baseline).value, FindingsOf(current).value;
    var full := Compare(baseline, current, maxDays, now).value;
    var ids := Common(b, c);
    ChangesAreAlike(b, c, ids);
    AlikeTotals(|full.added|, |full.resolved|, Drifts(full.changed), OwnDrifts(b, c, ids), |full.reasons|);
  }

  /** The count path returns whenever both reports can be read and the age limit is valid; the full path further needs
      every record to be publishable, and the exported states of a changed finding to be well formed. */
  lemma FullPathNeedsExport(baseline: Report, current: Report, maxDays: Option<int>, now: int)
    requires CountOnly(baseline, current, maxDays, now).Some?
    ensures var b, c := FindingsOf(baseline).value, FindingsOf(current).value;
            Compare(baseline, current, maxDays, now).Some? <==>
            Publishable(b) && Publishable(c)
            && forall id :: id in b && id in c && b[id].state != c[id].state ==>
                              b[id].exported.state.Some? && c[id].exported.state.Some?
  {
    hide TotalsOf, Reasons, Missing, FindingsOf;
    FindingsHaveStates(baseline);
    FindingsHaveStates(current);
    var b, c := FindingsOf(baseline).value, FindingsOf(current).value;
    if Publishable(b) && Publishable(c) {
      ChangesExist(b, c, Common(b, c));
    }
    hide Changes, OwnDrifts;
  }

  lemma {:induction false} ChangesExist(b: Index, c: Index, ids: seq<string>)
    requires forall id :: id in ids ==> id in b && id in c
    requires States(b) && States(c) && Publishable(b) && Publishable(c)
    ensures Changes(b, c, ids).Some? <==>
            forall id :: id in ids && b[id].state != c[id].state ==> b[id].exported.state.Some? && c[id].exported.state.Some?
    decreases |ids|
  {
    hide ChangedFields, DriftOf;
    if ids != [] {
      var n := |ids| - 1;
      ChangesExist(b, c, ids[..n]);
      assert ids == ids[..n] + [ids[n]];
      ChangedFieldsAre(b[ids[n]].state.value, c[ids[n]].state.value);
    }
  }

  // ---------------------------------------------------------------- conservation

  ghost function Elements(s: seq<string>): (r: set<string>)
    ensures forall x :: x in r <==> x in s
  {
    set x | x in s
  }

  // The parts are disjoint and together make the whole.
  ghost predicate Partition(whole: set<string>, parts: seq<set<string>>) {
    && (forall x :: x in whole <==> exists i :: 0 <= i < |parts| && x in parts[i])
    && (forall i, j :: 0 <= i < j < |parts| ==> parts[i] !! parts[j])
  }

  lemma MissingParts(b: set<string>, c: set<string>, local: set<string>, resolved: set<string>, unknown: set<string>)
    requires local <= b - c && resolved !! unknown && resolved + unknown == b - c - local
    ensures Partition(b, [b * c, resolved, unknown, local])
  {
    var parts := [b * c, resolved, unknown, local];
    assert parts[0] == b * c && parts[1] == resolved && parts[2] == unknown && parts[3] == local;
  }

  lemma NewParts(b: set<string>, c: set<string>, local: set<string>)
    requires local <= c - b
    ensures Partition(c, [b * c, c - b - local, local])
  {
    var parts := [b * c, c - b - local, local];
    assert parts[0] == b * c && parts[1] == c - b - local && parts[2] == local;
  }

  /** Every finding is accounted for exactly once, no list repeats an id, and absence is only called resolution when
      nothing qualifies the comparison. */
  lemma EveryFindingIsAccountedFor(baseline: Report, current: Report, maxDays: Option<int>, now: int)
    requires Compare(baseline, current, maxDays, now).Some?
    ensures var r := Compare(baseline, current, maxDays, now).value;
            var b, c := FindingsOf(baseline).value.Keys, FindingsOf(current).value.Keys;
            && Partition(b, [b * c, Elements(r.resolved), Elements(r.unknown), Elements(r.localBaseline)])
            && Partition(c, [b * c, Elements(r.added), Elements(r.localCurrent)])
            && Ascending(r.resolved) && Ascending(r.unknown) && Ascending(r.localBaseline)
            && Ascending(r.added) && Ascending(r.localCurrent)
            && (r.resolved != [] ==> r.reasons == []) && (r.unknown != [] ==> r.reasons != [])
  {
    FindingsHaveStates(baseline);
    FindingsHaveStates(current);
    var r := Compare(baseline, current, maxDays, now).value;
    var b, c := FindingsOf(baseline).value, FindingsOf(current).value;
    hide TotalsOf, Reasons, Changes, Sorted, FindingsOf, Ascending, Partition, Elements, LocalIds, Publishable, AgeLimitOk, Drifts, Common;
    ListsAre(b, c, r);
    LocalIdsAreMissing(b, c);
    LocalIdsAreMissing(c, b);
    hide *;
    MissingParts(b.Keys, c.Keys, LocalIds(b, c), Elements(r.resolved), Elements(r.unknown));
    NewParts(b.Keys, c.Keys, LocalIds(c, b));
  }

  lemma ListsAre(b: Index, c: Index, r: Compared)
    requires r.added == Missing(c, b) && r.localBaseline == Sorted(LocalIds(b, c)) && r.localCurrent == Sorted(LocalIds(c, b))
    requires r.resolved == if r.reasons == [] then Missing(b, c) else []
    requires r.unknown == if r.reasons == [] then [] else Missing(b, c)
    ensures Elements(r.added) == c.Keys - b.Keys - LocalIds(c, b)
    ensures Elements(r.localBaseline) == LocalIds(b, c) && Elements(r.localCurrent) == LocalIds(c, b)
    ensures Elements(r.resolved) + Elements(r.unknown) == b.Keys - c.Keys - LocalIds(b, c)
    ensures Elements(r.resolved) !! Elements(r.unknown)
    ensures Ascending(r.resolved) && Ascending(r.unknown) && Ascending(r.localBaseline) && Ascending(r.added) && Ascending(r.localCurrent)
    ensures (r.resolved != [] ==> r.reasons == []) && (r.unknown != [] ==> r.reasons != [])
  {
    hide Sorted, LocalIds, Elements, Ascending;
    MissingIs(b, c);
    MissingIs(c, b);
    ElementsOfSorted(LocalIds(b, c));
    ElementsOfSorted(LocalIds(c, b));
    hide Missing;
    assert Elements([]) == {} && Ascending([]) by { NothingIsAscending(); }
  }

  lemma MissingIs(b: Index, c: Index)
    ensures Elements(Missing(b, c)) == b.Keys - c.Keys - LocalIds(b, c) && Ascending(Missing(b, c))
  {
    hide Sorted, LocalIds, Elements, Ascending;
    ElementsOfSorted(b.Keys - c.Keys - LocalIds(b, c));
  }

  lemma NothingIsAscending()
    ensures Ascending([])
  {
  }

  lemma LocalIdsAreMissing(b: Index, c: Index)
    ensures LocalIds(b, c) <= b.Keys - c.Keys
  {
  }

  lemma ElementsOfSorted(s: set<string>)
    ensures Elements(Sorted(s)) == s && Ascending(Sorted(s))
  {
  }

  /** A finding is only called resolved when it is gone from a complete, attested scan of the same scope, is not
      scan-local, and the baseline is recent enough. */
  lemma ResolutionNeedsEvidence(baseline: Report, current: Report, maxDays: Option<int>, now: int, id: string)
    requires Compare(baseline, current, maxDays, now).Some?
    requires id in Compare(baseline, current, maxDays, now).value.resolved
    ensures var b, c := FindingsOf(baseline).value, FindingsOf(current).value;
            && id in b && id !in c && !b[id].scanLocal
            && Complete(baseline) && Complete(current) && CountsMatch(baseline) && CountsMatch(current)
            && IdentityAttested(baseline) && IdentityAttested(current)
            && Covered(baseline.stats.value) == Covered(current.stats.value)
            && baseline.scope.Some? && baseline.scope == current.scope
            && RecentEnough(baseline.startedAt, current.startedAt, maxDays, now)
  {
    FindingsHaveStates(baseline);
    FindingsHaveStates(current);
    hide TotalsOf, Changes, FindingsOf, Complete, CountsMatch, IdentityAttested, Covered, RecentEnough, Reasons;
    var b, c := FindingsOf(baseline).value, FindingsOf(current).value;
    ComparableWhen(baseline, current, b, c, maxDays, now);
    NoLocalIds(b, c);
    assert id in b.Keys - c.Keys - LocalIds(b, c);
  }

  predicate Lists(changes: seq<Change>, id: string) {
    exists x :: x in changes && x.id == id
  }

  lemma {:induction false} ChangedExactlyWhereStatesDiffer(b: Index, c: Index, ids: seq<string>)
    requires forall id :: id in ids ==> id in b && id in c && b[id].id == id
    requires States(b) && States(c) && Publishable(b) && Publishable(c)
    requires Changes(b, c, ids).Some?
    ensures forall id :: id in ids && b[id].state != c[id].state <==> Lists(Changes(b, c, ids).value, id)
    decreases |ids|
  {
    hide ChangedFields, DriftOf;
    if ids != [] {
      var n := |ids| - 1;
      ChangedExactlyWhereStatesDiffer(b, c, ids[..n]);
      assert ids == ids[..n] + [ids[n]];
      ChangedFieldsAre(b[ids[n]].state.value, c[ids[n]].state.value);
      var all, rest, last := Changes(b, c, ids).value, Changes(b, c, ids[..n]).value, ChangeOf(b[ids[n]], c[ids[n]]).value;
      assert all == rest + last;
      forall id ensures Lists(all, id) <==> Lists(rest, id) || Lists(last, id) {
        assert forall x :: x in all <==> x in rest || x in last;
      }
      assert Lists(last, ids[n]) <==> b[ids[n]].state != c[ids[n]].state by { assert last != [] ==> last[0] in last; }
    }
  }

  /** A shared finding is listed as changed exactly when its substantive state differs. */
  lemma ChangedMeansStateDiffers(baseline: Report, current: Report, maxDays: Option<int>, now: int, id: string)
    requires Compare(baseline, current, maxDays, now).Some?
    ensures var b, c := FindingsOf(baseline).value, FindingsOf(current).value;
            Lists(Compare(baseline, current, maxDays, now).value.changed, id)
            <==> id in b && id in c && b[id].state != c[id].state
  {
    FindingsHaveStates(baseline);
    FindingsHaveStates(current);
    IndexedHolds(baseline.findings.value);
    hide TotalsOf, Reasons, Indexed, Missing, Changes;
    var b, c := FindingsOf(baseline).value, FindingsOf(current).value;
    ChangedExactlyWhereStatesDiffer(b, c, Common(b, c));
  }

  /** A report compared with itself shows nothing new, resolved, unknown or changed. */
  lemma NothingChangesAgainstItself(report: Report, maxDays: Option<int>, now: int)
    requires Compare(report, report, maxDays, now).Some?
    ensures var r := Compare(report, report, maxDays, now).value;
            r.added == [] && r.resolved == [] && r.unknown == [] && r.changed == []
  {
    FindingsHaveStates(report);
    IndexedHolds(report.findings.value);
    var b := FindingsOf(report).value;
    var r := Compare(report, report, maxDays, now).value;
    var ids := Common(b, b);
    hide TotalsOf, Reasons, Indexed;
    if r.changed != [] {
      assert r.changed[0] in r.changed;
      ChangedMeansStateDiffers(report, report, maxDays, now, r.changed[0].id);
    }
    assert b.Keys - b.Keys - LocalIds(b, b) == {};
  }
}
