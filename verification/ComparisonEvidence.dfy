/** What the evidence behind a comparison is, read off the two reports: which connectors completed, what the summaries
    count, how recent the baseline is. */
module ComparisonEvidence {
  import opened Drift
  import opened Comparison
  import opened ComparisonResults
  import Text

  // ---------------------------------------------------------------- counting

  // The positions of a name in a list.
  function Positions(names: seq<string>, name: string): (r: set<nat>)
    ensures forall i :: i in r <==> 0 <= i < |names| && names[i] == name
  {
    set i | 0 <= i < |names| && names[i] == name
  }

  lemma OnePositionMore(names: seq<string>, name: string)
    requires names != []
    ensures |Positions(names, name)| ==
            |Positions(names[..|names| - 1], name)| + (if names[|names| - 1] == name then 1 else 0)
  {
    var n := |names| - 1;
    var rest := Positions(names[..n], name);
    if names[n] == name {
      assert Positions(names, name) == rest + {n};
    } else {
      assert Positions(names, name) == rest;
    }
  }

  /** The summary's counters: every name that occurs, with the number of its occurrences. */
  lemma {:induction false} CounterCounts(names: seq<string>, name: string)
    ensures name in Counter(names) <==> name in names
    ensures name in names ==> Counter(names)[name] == |Positions(names, name)|
    ensures name !in names ==> Positions(names, name) == {}
    decreases |names|
  {
    if names != [] {
      var n := |names| - 1;
      assert names == names[..n] + [names[n]];
      CounterCounts(names[..n], name);
      OnePositionMore(names, name);
    }
  }

  // The connector names of a complete report, in order.
  function Connectors(stats: seq<Option<Stat>>): (r: seq<string>)
    requires forall s :: s in stats ==> StatComplete(s)
    ensures |r| == |stats| && forall i :: 0 <= i < |r| ==> stats[i].Some? && stats[i].value.connector == Some(r[i])
  {
    if stats == [] then []
    else
      assert StatComplete(stats[|stats| - 1]);
      Connectors(stats[..|stats| - 1]) + [stats[|stats| - 1].value.connector.value]
  }

  // Scan-level records, which are not connectors.
  predicate OfEngine(name: string) {
    |name| >= 7 && name[..7] == "engine."
  }

  /** Coverage counts each connector as often as it completed, and no scan-level record. */
  lemma {:induction false} CoveredCounts(stats: seq<Option<Stat>>, name: string)
    requires forall s :: s in stats ==> StatComplete(s)
    ensures Covered(stats)[name] == if OfEngine(name) then 0 else |Positions(Connectors(stats), name)|
    decreases |stats|
  {
    if stats == [] {
      assert Positions(Connectors(stats), name) == {};
    } else {
      var n := |stats| - 1;
      assert stats[n] in stats && stats == stats[..n] + [stats[n]];
      CoveredCounts(stats[..n], name);
      OnePositionMore(Connectors(stats), name);
      assert Connectors(stats)[..n] == Connectors(stats[..n]);
      assert EngineRecord(stats[n].value.connector.value) <==> OfEngine(stats[n].value.connector.value);
    }
  }

  // ---------------------------------------------------------------- completeness

  ghost predicate Succeeded(s: Option<Stat>) {
    exists name :: s == Some(Stat(Some(name), Some(0), Some(false), Some(false))) && !Text.Blank(name)
  }

  /** A scan is complete when its summary says so and it has records, each of a named connector without errors, neither
      skipped nor incomplete; a missing field is not evidence of success. */
  lemma CompleteMeans(r: Report)
    ensures Complete(r) <==>
            && r.summary.Some? && r.summary.value.complete == Some(true)
            && r.stats.Some? && |r.stats.value| > 0
            && forall i :: 0 <= i < |r.stats.value| ==> Succeeded(r.stats.value[i])
  {
    if r.stats.Some? {
      var stats := r.stats.value;
      forall i | 0 <= i < |stats| ensures StatComplete(stats[i]) <==> Succeeded(stats[i]) {
        if StatComplete(stats[i]) {
          assert stats[i] == Some(Stat(Some(stats[i].value.connector.value), Some(0), Some(false), Some(false)));
        }
      }
      hide Succeeded, StatComplete;
      assert forall s :: s in stats <==> exists i :: 0 <= i < |stats| && stats[i] == s;
    }
  }

  // A tally, if there is one, gives exactly the names that occur and how often.
  ghost predicate Tallies(t: Tally, names: seq<string>) {
    t.Tally? ==>
      && (forall name :: name in t.counts <==> name in names)
      && forall name :: name in names ==> t.counts[name] == |Positions(names, name)|
  }

  lemma TalliesAre(t: Tally, names: seq<string>)
    ensures Tallies(t, names) <==> t.NoTally? || t.counts == Counter(names)
  {
    forall name
      ensures name in Counter(names) <==> name in names
      ensures name in names ==> Counter(names)[name] == |Positions(names, name)|
    {
      CounterCounts(names, name);
    }
    hide Counter;
  }

  /** The summary agrees with the findings the report carries: their number, and their tallies by surface and by kind. */
  lemma CountsMatchMeans(r: Report)
    requires r.findings.Some?
    ensures CountsMatch(r) <==>
            (r.summary.Some? ==>
               && r.summary.value.total == Some(|r.findings.value|)
               && Tallies(r.summary.value.bySurface, Surfaces(r.findings.value))
               && Tallies(r.summary.value.byKind, Kinds(r.findings.value)))
    ensures forall i :: 0 <= i < |r.findings.value| ==>
              Surfaces(r.findings.value)[i] == r.findings.value[i].surface && Kinds(r.findings.value)[i] == r.findings.value[i].kind
  {
    hide Tallies, Counter;
    if r.summary.Some? {
      TalliesAre(r.summary.value.bySurface, Surfaces(r.findings.value));
      TalliesAre(r.summary.value.byKind, Kinds(r.findings.value));
    }
  }

  // ---------------------------------------------------------------- the reasons

  function SideOf(side: Side, baseline: Report, current: Report): Report {
    if side.Baseline? then baseline else current
  }

  predicate Attested(r: Report)
    requires r.findings.Some?
  {
    r.attested && forall f :: f in r.findings.value ==> f.attested
  }

  // Why one report is not comparable.
  lemma SideReasonsAre(side: Side, r: Report, x: Reason)
    requires r.findings.Some?
    ensures x in SideReasons(side, r) <==>
            || (x == Incomplete(side) && !Complete(r))
            || (x == CountsDiffer(side) && !CountsMatch(r))
            || (x == LegacyIdentity(side) && !Attested(r))
  {
    hide Complete, CountsMatch;
  }

  lemma ReasonIsFrom(baseline: Report, current: Report, b: Index, c: Index, maxDays: Option<int>, now: int, x: Reason)
    requires baseline.findings.Some? && current.findings.Some?
    ensures x in Reasons(baseline, current, b, c, maxDays, now) <==>
            || x in SideReasons(Baseline, baseline) || x in SideReasons(Current, current)
            || (x == CoverageDiffers && !CoverageAgrees(baseline, current))
            || x in ScopeReasons(baseline.scope, current.scope)
            || (x == ScanLocalIds(|LocalIds(b, c)| + |LocalIds(c, b)|) && (LocalIds(b, c) != {} || LocalIds(c, b) != {}))
            || x in AgeReasons(baseline.startedAt, current.startedAt, maxDays, now)
  {
    hide SideReasons, CoverageAgrees, ScopeReasons, LocalIds, AgeReasons;
  }

  lemma ScopeReasonsAre(b: Option<string>, c: Option<string>, x: Reason)
    ensures x in ScopeReasons(b, c) <==>
            (x == ScopeUnavailable && (b.None? || c.None?)) || (x == ScopeDiffers && b.Some? && c.Some? && b != c)
  {
  }

  lemma OnlyFromItsSide(baseline: Report, current: Report, b: Index, c: Index, maxDays: Option<int>, now: int, x: Reason)
    requires baseline.findings.Some? && current.findings.Some? && (x.Incomplete? || x.CountsDiffer? || x.LegacyIdentity?)
    ensures x in Reasons(baseline, current, b, c, maxDays, now) <==> x in SideReasons(x.side, SideOf(x.side, baseline, current))
  {
    hide SideReasons, Reasons, Complete, CountsMatch, Attested, LocalIds, AgeReasons, ScopeReasons, CoverageAgrees;
    ReasonIsFrom(baseline, current, b, c, maxDays, now, x);
    AgeReasonsAreDated(baseline.startedAt, current.startedAt, maxDays, now);
    ScopeReasonsAre(baseline.scope, current.scope, x);
    SideReasonsAre(Baseline, baseline, x);
    SideReasonsAre(Current, current, x);
  }

  /** Each reason about one report is given exactly when what it says is so. */
  lemma ReasonsAboutOne(baseline: Report, current: Report, b: Index, c: Index, maxDays: Option<int>, now: int, side: Side)
    requires baseline.findings.Some? && current.findings.Some?
    ensures var reasons, r := Reasons(baseline, current, b, c, maxDays, now), SideOf(side, baseline, current);
            && (Incomplete(side) in reasons <==> !Complete(r))
            && (CountsDiffer(side) in reasons <==> !CountsMatch(r))
            && (LegacyIdentity(side) in reasons <==> !Attested(r))
  {
    hide SideReasons, Reasons, Complete, CountsMatch, Attested;
    OnlyFromItsSide(baseline, current, b, c, maxDays, now, Incomplete(side));
    OnlyFromItsSide(baseline, current, b, c, maxDays, now, CountsDiffer(side));
    OnlyFromItsSide(baseline, current, b, c, maxDays, now, LegacyIdentity(side));
    SideReasonsAre(side, SideOf(side, baseline, current), Incomplete(side));
    SideReasonsAre(side, SideOf(side, baseline, current), CountsDiffer(side));
    SideReasonsAre(side, SideOf(side, baseline, current), LegacyIdentity(side));
  }

  /** So is each reason about the two of them; an unmatched scan-local finding is counted wherever it is. */
  lemma ReasonsAboutBoth(baseline: Report, current: Report, b: Index, c: Index, maxDays: Option<int>, now: int)
    requires baseline.findings.Some? && current.findings.Some?
    ensures var reasons := Reasons(baseline, current, b, c, maxDays, now);
            && (CoverageDiffers in reasons <==>
                Complete(baseline) && Complete(current) && Covered(baseline.stats.value) != Covered(current.stats.value))
            && (ScopeUnavailable in reasons <==> baseline.scope.None? || current.scope.None?)
            && (ScopeDiffers in reasons <==> baseline.scope.Some? && current.scope.Some? && baseline.scope != current.scope)
            && (forall n :: ScanLocalIds(n) in reasons <==> n > 0 && n == |LocalIds(b, c)| + |LocalIds(c, b)|)
  {
    hide SideReasons, Reasons, Complete, CountsMatch, Attested, LocalIds, AgeReasons, ScopeReasons, Covered;
    AgeReasonsAreDated(baseline.startedAt, current.startedAt, maxDays, now);
    forall x: Reason | x.CoverageDiffers? || x.ScopeUnavailable? || x.ScopeDiffers? || x.ScanLocalIds?
      ensures x in Reasons(baseline, current, b, c, maxDays, now) <==>
              || (x == CoverageDiffers && !CoverageAgrees(baseline, current))
              || (x == ScopeUnavailable && (baseline.scope.None? || current.scope.None?))
              || (x == ScopeDiffers && baseline.scope.Some? && current.scope.Some? && baseline.scope != current.scope)
              || (x == ScanLocalIds(|LocalIds(b, c)| + |LocalIds(c, b)|) && (LocalIds(b, c) != {} || LocalIds(c, b) != {}))
    {
      SideReasonsAre(Baseline, baseline, x);
      SideReasonsAre(Current, current, x);
      ScopeReasonsAre(baseline.scope, current.scope, x);
      ReasonIsFrom(baseline, current, b, c, maxDays, now, x);
    }
  }

  predicate IsAge(x: Reason) {
    x.BaselineUndated? || x.BaselineInFuture? || x.BaselineTooOld? || x.CurrentUndated? || x.BaselineAfterCurrent?
  }

  lemma AgeReasonsAreDated(b: Option<int>, c: Option<int>, maxDays: Option<int>, now: int)
    ensures forall x :: x in AgeReasons(b, c, maxDays, now) ==> IsAge(x)
  {
  }

  /** The age of a baseline, in seconds: at most five minutes ahead of the clock, at most so many days behind it, and not
      after the current scan. Without a limit nothing is asked. */
  lemma AgeReasonsMean(b: Option<int>, c: Option<int>, maxDays: Option<int>, now: int)
    ensures var reasons := AgeReasons(b, c, maxDays, now);
            && (maxDays.None? ==> reasons == [])
            && (BaselineUndated in reasons <==> maxDays.Some? && b.None?)
            && (BaselineInFuture in reasons <==> maxDays.Some? && b.Some? && b.value > now + 300)
            && (BaselineTooOld in reasons <==>
                maxDays.Some? && b.Some? && b.value <= now + 300 && now - b.value > maxDays.value * 86400)
            && (CurrentUndated in reasons <==> maxDays.Some? && b.Some? && c.None?)
            && (BaselineAfterCurrent in reasons <==> maxDays.Some? && b.Some? && c.Some? && b.value > c.value)
  {
  }

  // ---------------------------------------------------------------- totals per class

  // An entry of this class, or an adverse one, is among the entries of a change.
  ghost predicate Touches(drift: seq<Entry>, c: DriftClass) {
    exists i :: 0 <= i < |drift| && drift[i].cls == c
  }

  ghost predicate TouchesAdversely(drift: seq<Entry>, c: DriftClass) {
    exists i :: 0 <= i < |drift| && drift[i].cls == c && drift[i].adverse
  }

  // The changes with an entry of this class.
  ghost function Touching(drifts: seq<seq<Entry>>, c: DriftClass): set<nat> {
    set i | 0 <= i < |drifts| && Touches(drifts[i], c)
  }

  lemma ClassesAre(drift: seq<Entry>, c: DriftClass)
    ensures HasClass(drift, c) <==> Touches(drift, c)
    ensures HasAdverse(drift, c) <==> TouchesAdversely(drift, c)
  {
    if e :| e in drift && e.cls == c {
      var i :| 0 <= i < |drift| && drift[i] == e;
      assert drift[i].cls == c;
    }
    if e :| e in drift && e.cls == c && e.adverse {
      var i :| 0 <= i < |drift| && drift[i] == e;
      assert drift[i].cls == c && drift[i].adverse;
    }
  }

  lemma OneTouchedMore(drifts: seq<seq<Entry>>, c: DriftClass)
    requires drifts != []
    ensures |Touching(drifts, c)| ==
            |Touching(drifts[..|drifts| - 1], c)| + (if Touches(drifts[|drifts| - 1], c) then 1 else 0)
  {
    hide Touches;
    var n := |drifts| - 1;
    var rest := Touching(drifts[..n], c);
    if Touches(drifts[n], c) {
      assert Touching(drifts, c) == rest + {n};
    } else {
      assert Touching(drifts, c) == rest;
    }
  }

  lemma {:induction false} CountInIs(drifts: seq<seq<Entry>>, c: DriftClass)
    ensures CountIn(drifts, c) == |Touching(drifts, c)|
    decreases |drifts|
  {
    hide HasClass, Touches, Touching;
    if drifts == [] {
      NothingTouches(c);
    } else {
      var n := |drifts| - 1;
      CountInIs(drifts[..n], c);
      ClassesAre(drifts[n], c);
      OneTouchedMore(drifts, c);
    }
  }

  lemma NothingTouches(c: DriftClass)
    ensures Touching([], c) == {}
  {
  }

  /** What a comparison totals per class: the changes with an entry of it, and among inventory also the findings that are new
      or resolved; what is unknown about coverage is counted by its reasons. A class is adverse if one of its entries is, the
      inventory also when a finding is new, and coverage whenever there is a reason. */
  lemma TotalsMean(added: nat, resolved: nat, drifts: seq<seq<Entry>>, reasons: nat, c: DriftClass)
    ensures var t := TotalsOf(added, resolved, drifts, reasons);
            && c in t.counts && c in t.adverse
            && t.counts[c] == (if c.Coverage? then reasons
                               else |Touching(drifts, c)| + if c.Inventory? then added + resolved else 0)
            && (t.adverse[c] <==>
                || (c.Coverage? && reasons > 0) || (c.Inventory? && added > 0)
                || (!c.Coverage? && exists i :: 0 <= i < |drifts| && TouchesAdversely(drifts[i], c)))
  {
    ClassIsListed(c);
    CountInIs(drifts, c);
    forall i | 0 <= i < |drifts| ensures HasAdverse(drifts[i], c) <==> TouchesAdversely(drifts[i], c) { ClassesAre(drifts[i], c); }
    hide HasAdverse, TouchesAdversely, CountIn, Touching;
    assert AnyAdverse(drifts, c) <==> exists i :: 0 <= i < |drifts| && HasAdverse(drifts[i], c);
  }

  // ---------------------------------------------------------------- what a resolution rests on

  /** A finding is called resolved only if every connector completed equally often in both scans, both scans were attested
      and of one scope, and the baseline, if its age is limited, is of that age. */
  lemma ResolutionMeans(baseline: Report, current: Report, maxDays: Option<int>, now: int, id: string)
    requires Compare(baseline, current, maxDays, now).Some?
    requires id in Compare(baseline, current, maxDays, now).value.resolved
    ensures baseline.findings.Some? && current.findings.Some? && baseline.stats.Some? && current.stats.Some?
    ensures (forall s :: s in baseline.stats.value ==> StatComplete(s)) && (forall s :: s in current.stats.value ==> StatComplete(s))
    ensures forall name :: !OfEngine(name) ==>
              |Positions(Connectors(baseline.stats.value), name)| == |Positions(Connectors(current.stats.value), name)|
    ensures baseline.attested && current.attested
    ensures forall f :: f in baseline.findings.value || f in current.findings.value ==> f.attested
    ensures baseline.scope.Some? && baseline.scope == current.scope
    ensures maxDays.Some? ==>
              && 1 <= maxDays.value <= 36500 && baseline.startedAt.Some? && current.startedAt.Some?
              && baseline.startedAt.value <= now + 300 && baseline.startedAt.value <= current.startedAt.value
              && now - baseline.startedAt.value <= maxDays.value * 86400
  {
    ResolutionNeedsEvidence(baseline, current, maxDays, now, id);
    AgeLimitHolds(baseline, current, maxDays, now);
    hide Compare, StatComplete, CountsMatch, Covered;
    forall name | !OfEngine(name)
      ensures |Positions(Connectors(baseline.stats.value), name)| == |Positions(Connectors(current.stats.value), name)|
    {
      CoveredCounts(baseline.stats.value, name);
      CoveredCounts(current.stats.value, name);
    }
  }

  lemma AgeLimitHolds(baseline: Report, current: Report, maxDays: Option<int>, now: int)
    requires Compare(baseline, current, maxDays, now).Some?
    ensures baseline.findings.Some? && current.findings.Some?
    ensures maxDays.Some? ==> 1 <= maxDays.value <= 36500
  {
    hide Indexed, Reasons, Changes, TotalsOf;
  }

  /** The count-only comparison is refused exactly when a report cannot be read or the age limit is not 1 to 36500 days. */
  lemma CountsRefusedWhen(baseline: Report, current: Report, maxDays: Option<int>, now: int)
    ensures CountOnly(baseline, current, maxDays, now).None? <==>
            || FindingsOf(baseline).None? || FindingsOf(current).None?
            || (maxDays.Some? && (maxDays.value < 1 || maxDays.value > 36500))
  {
    hide FindingsOf, Reasons, OwnDrifts, TotalsOf, Missing, Common;
  }
}
