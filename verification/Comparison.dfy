/** Comparing two reports, in full and by counts only (compare_reports and drift_counts in shadowscan/comparison.py). */
module Comparison {
  import opened Ordering
  import opened Drift
  import Text

  datatype Option<T> = None | Some(value: T)

  // ---------------------------------------------------------------- reports as read

  // What publishing a record gives: nothing if the export boundary refuses it, otherwise the exported record's state,
  // which may itself be malformed.
  datatype Exported = Refused | Published(state: Option<State>)

  // `basic` says that risk, title and resource are well formed; `state` is None when a compared attribute is not.
  datatype Record = Record(
    id: string, basic: bool, state: Option<State>, exported: Exported, surface: string, kind: string,
    attested: bool, scanLocal: bool)

  // Each field is None when it is missing or of another type.
  datatype Stat = Stat(connector: Option<string>, errors: Option<nat>, skipped: Option<bool>, incomplete: Option<bool>)

  datatype Tally = NoTally | Tally(counts: map<string, int>)

  datatype Summary = Summary(complete: Option<bool>, total: Option<int>, bySurface: Tally, byKind: Tally)

  datatype Report = Report(
    findings: Option<seq<Record>>, summary: Option<Summary>, stats: Option<seq<Option<Stat>>>,
    attested: bool, scope: Option<string>, startedAt: Option<int>)

  type Index = map<string, Record>

  // ---------------------------------------------------------------- reading the findings of a report

  predicate Readable(r: Record, seen: Index) {
    r.id != "" && r.basic && r.id !in seen && r.state.Some?
  }

  /** _findings: the records by id, or an error for a malformed record or a repeated id. */
  function Indexed(rs: seq<Record>): Option<Index> {
    if rs == [] then Some(map[])
    else
      var rest := Indexed(rs[..|rs| - 1]);
      var r := rs[|rs| - 1];
      if rest.Some? && Readable(r, rest.value) then Some(rest.value[r.id := r]) else None
  }

  function FindingsOf(report: Report): Option<Index> {
    if report.findings.None? then None else Indexed(report.findings.value)
  }

  ghost predicate UniqueIds(rs: seq<Record>) {
    forall i, j :: 0 <= i < j < |rs| ==> rs[i].id != rs[j].id
  }

  predicate WellFormed(r: Record) {
    r.id != "" && r.basic && r.state.Some?
  }

  /** The index holds exactly the records of the report, each under its own id. */
  lemma {:induction false} IndexedHolds(rs: seq<Record>)
    requires Indexed(rs).Some?
    ensures forall id :: id in Indexed(rs).value ==> Indexed(rs).value[id] in rs && Indexed(rs).value[id].id == id
    ensures forall r :: r in rs ==> r.id in Indexed(rs).value && Indexed(rs).value[r.id] == r && WellFormed(r)
    ensures |Indexed(rs).value| == |rs|
    decreases |rs|
  {
    if rs != [] {
      var n := |rs| - 1;
      IndexedHolds(rs[..n]);
      assert rs == rs[..n] + [rs[n]];
      assert Indexed(rs).value == Indexed(rs[..n]).value[rs[n].id := rs[n]];
    }
  }

  /** A report is read exactly when every record is well formed and no id repeats. */
  lemma {:induction false} IndexedWhen(rs: seq<Record>)
    ensures Indexed(rs).Some? <==> (forall r :: r in rs ==> WellFormed(r)) && UniqueIds(rs)
    decreases |rs|
  {
    if rs != [] {
      var n := |rs| - 1;
      var rest, r := rs[..n], rs[n];
      IndexedWhen(rest);
      assert rs == rest + [r];
      UniqueOneMore(rest, r);
      hide UniqueIds;
      assert (forall x :: x in rs ==> WellFormed(x)) <==> (forall x :: x in rest ==> WellFormed(x)) && WellFormed(r) by {
        assert r in rs && forall x :: x in rest ==> x in rs;
      }
      if Indexed(rest).Some? {
        IndexedHolds(rest);
        assert r.id in Indexed(rest).value <==> exists x :: x in rest && x.id == r.id;
      }
    }
  }

  lemma UniqueOneMore(rest: seq<Record>, r: Record)
    ensures UniqueIds(rest + [r]) <==> UniqueIds(rest) && forall x :: x in rest ==> x.id != r.id
  {
    var all := rest + [r];
    if UniqueIds(all) {
      forall x | x in rest ensures x.id != r.id {
        var i :| 0 <= i < |rest| && rest[i] == x;
        assert all[i].id != all[|rest|].id;
      }
      forall i, j | 0 <= i < j < |rest| ensures rest[i].id != rest[j].id { assert all[i].id != all[j].id; }
    }
  }

  method ReadFindings(report: Report) returns (index: Option<Index>)
    ensures index == FindingsOf(report)
  {
    if report.findings.None? {
      return None;
    }
    var rs := report.findings.value;
    var seen: Index := map[];
    for n := 0 to |rs|
      invariant Indexed(rs[..n]) == Some(seen)
    {
      var r := rs[n];
      assert rs[..n + 1][..n] == rs[..n];
      if !Readable(r, seen) {
        Unreadable(rs, n + 1);
        return None;
      }
      seen := seen[r.id := r];
    }
    assert rs[..|rs|] == rs;
    index := Some(seen);
  }

  lemma {:induction false} Unreadable(rs: seq<Record>, n: nat)
    requires n <= |rs| && Indexed(rs[..n]).None?
    ensures Indexed(rs).None?
    decreases |rs| - n
  {
    if n == |rs| {
      assert rs[..n] == rs;
    } else {
      assert rs[..n + 1][..n] == rs[..n];
      Unreadable(rs, n + 1);
    }
  }

  // ---------------------------------------------------------------- why two reports cannot be compared

  datatype Side = Baseline | Current

  datatype Reason =
    | Incomplete(side: Side) | CountsDiffer(side: Side) | LegacyIdentity(side: Side)
    | CoverageDiffers | ScopeUnavailable | ScopeDiffers | ScanLocalIds(count: nat)
    | BaselineUndated | BaselineInFuture | BaselineTooOld | CurrentUndated | BaselineAfterCurrent

  predicate StatComplete(s: Option<Stat>) {
    && s.Some? && s.value.connector.Some? && !Text.Blank(s.value.connector.value)
    && s.value.errors == Some(0) && s.value.skipped == Some(false) && s.value.incomplete == Some(false)
  }

  predicate Complete(r: Report) {
    && r.summary.Some? && r.summary.value.complete == Some(true)
    && r.stats.Some? && r.stats.value != [] && forall s :: s in r.stats.value ==> StatComplete(s)
  }

  function Counter(names: seq<string>): map<string, int> {
    if names == [] then map[]
    else
      var rest, n := Counter(names[..|names| - 1]), names[|names| - 1];
      rest[n := (if n in rest then rest[n] else 0) + 1]
  }

  function Surfaces(rs: seq<Record>): seq<string> {
    seq(|rs|, i requires 0 <= i < |rs| => rs[i].surface)
  }

  function Kinds(rs: seq<Record>): seq<string> {
    seq(|rs|, i requires 0 <= i < |rs| => rs[i].kind)
  }

  predicate CountsMatch(r: Report)
    requires r.findings.Some?
  {
    r.summary.Some? ==>
      && r.summary.value.total == Some(|r.findings.value|)
      && (r.summary.value.bySurface.NoTally? || r.summary.value.bySurface.counts == Counter(Surfaces(r.findings.value)))
      && (r.summary.value.byKind.NoTally? || r.summary.value.byKind.counts == Counter(Kinds(r.findings.value)))
  }

  predicate IdentityAttested(r: Report)
    requires r.findings.Some?
  {
    r.attested && forall f :: f in r.findings.value ==> f.attested
  }

  predicate EngineRecord(name: string) {
    "engine." <= name
  }

  // The connectors of a complete report; two sorted lists are equal exactly when these multisets are.
  function Covered(stats: seq<Option<Stat>>): multiset<string>
    requires forall s :: s in stats ==> StatComplete(s)
  {
    if stats == [] then multiset{}
    else
      assert StatComplete(stats[|stats| - 1]);
      var name := stats[|stats| - 1].value.connector.value;
      Covered(stats[..|stats| - 1]) + (if EngineRecord(name) then multiset{} else multiset{name})
  }

  function SideReasons(side: Side, r: Report): seq<Reason>
    requires r.findings.Some?
  {
    (if Complete(r) then [] else [Incomplete(side)])
    + (if CountsMatch(r) then [] else [CountsDiffer(side)])
    + (if IdentityAttested(r) then [] else [LegacyIdentity(side)])
  }

  predicate CoverageAgrees(b: Report, c: Report) {
    Complete(b) && Complete(c) ==> Covered(b.stats.value) == Covered(c.stats.value)
  }

  function ScopeReasons(b: Option<string>, c: Option<string>): seq<Reason> {
    if b.None? || c.None? then [ScopeUnavailable] else if b != c then [ScopeDiffers] else []
  }

  function LocalIds(a: Index, b: Index): set<string> {
    set i | i in a.Keys - b.Keys && a[i].scanLocal
  }

  const CLOCK_SKEW := 300
  const DAY := 86400
  const MAX_AGE_DAYS := 36500

  function AgeReasons(b: Option<int>, c: Option<int>, maxDays: Option<int>, now: int): seq<Reason> {
    if maxDays.None? then []
    else if b.None? then [BaselineUndated]
    else
      (if b.value > now + CLOCK_SKEW then [BaselineInFuture]
       else if now - b.value > maxDays.value * DAY then [BaselineTooOld] else [])
      + (if c.None? then [CurrentUndated] else if b.value > c.value then [BaselineAfterCurrent] else [])
  }

  predicate AgeLimitOk(maxDays: Option<int>) {
    maxDays.Some? ==> 1 <= maxDays.value <= MAX_AGE_DAYS
  }

  function Reasons(baseline: Report, current: Report, b: Index, c: Index, maxDays: Option<int>, now: int): seq<Reason>
    requires baseline.findings.Some? && current.findings.Some?
  {
    SideReasons(Baseline, baseline) + SideReasons(Current, current)
    + (if CoverageAgrees(baseline, current) then [] else [CoverageDiffers])
    + ScopeReasons(baseline.scope, current.scope)
    + (if LocalIds(b, c) == {} && LocalIds(c, b) == {} then [] else [ScanLocalIds(|LocalIds(b, c)| + |LocalIds(c, b)|)])
    + AgeReasons(baseline.startedAt, current.startedAt, maxDays, now)
  }

  predicate RecentEnough(b: Option<int>, c: Option<int>, maxDays: Option<int>, now: int) {
    maxDays.Some? ==>
      b.Some? && c.Some? && b.value <= now + CLOCK_SKEW && now - b.value <= maxDays.value * DAY && b.value <= c.value
  }

  /** The comparison is unqualified exactly when both scans are complete, count-consistent and identity-attested, cover the
      same connectors under the same attested scope, leave no scan-local finding unmatched, and the baseline is recent. */
  lemma ComparableWhen(baseline: Report, current: Report, b: Index, c: Index, maxDays: Option<int>, now: int)
    requires baseline.findings.Some? && current.findings.Some? && AgeLimitOk(maxDays)
    ensures Reasons(baseline, current, b, c, maxDays, now) == [] <==>
            && Complete(baseline) && Complete(current) && CountsMatch(baseline) && CountsMatch(current)
            && IdentityAttested(baseline) && IdentityAttested(current)
            && Covered(baseline.stats.value) == Covered(current.stats.value)
            && baseline.scope.Some? && baseline.scope == current.scope
            && (forall i :: i in b && i !in c ==> !b[i].scanLocal)
            && (forall i :: i in c && i !in b ==> !c[i].scanLocal)
            && RecentEnough(baseline.startedAt, current.startedAt, maxDays, now)
  {
    NoLocalIds(b, c);
    NoLocalIds(c, b);
    hide Complete, CountsMatch, IdentityAttested, LocalIds, Covered;
    assert SideReasons(Baseline, baseline) == [] <==> Complete(baseline) && CountsMatch(baseline) && IdentityAttested(baseline);
    assert SideReasons(Current, current) == [] <==> Complete(current) && CountsMatch(current) && IdentityAttested(current);
    assert ScopeReasons(baseline.scope, current.scope) == [] <==> baseline.scope.Some? && baseline.scope == current.scope;
    assert AgeReasons(baseline.startedAt, current.startedAt, maxDays, now) == [] <==>
           RecentEnough(baseline.startedAt, current.startedAt, maxDays, now);
    hide SideReasons, ScopeReasons, AgeReasons, RecentEnough;
  }

  lemma NoLocalIds(a: Index, b: Index)
    ensures LocalIds(a, b) == {} <==> forall i :: i in a && i !in b ==> !a[i].scanLocal
  {
    if LocalIds(a, b) == {} {
      forall i | i in a && i !in b ensures !a[i].scanLocal { assert i !in LocalIds(a, b); }
    }
  }
}
