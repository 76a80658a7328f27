/** Registration verdicts and risk across the reports of a fleet (_assessment, _merge_registration and the accumulation
    loop of merge_reports in shadowscan/fleet.py). */
module Fleet {
  import opened Semilattice

  datatype Option<T> = None | Some(value: T)

  // ---------------------------------------------------------------- verdicts

  // What the sources say of a finding's registration. Shadow covers both an unregistered finding and contradicting matches.
  datatype Verdict = Unassessed | Registered(match_: string) | Shadow

  function JoinVerdicts(a: Verdict, b: Verdict): Verdict {
    if a.Unassessed? then b
    else if b.Unassessed? || a == b then a
    else Shadow
  }

  lemma VerdictsAreSemilattice()
    ensures IsSemilattice(JoinVerdicts)
  {
  }

  // A finding's registration fields.
  datatype Registration = Registration(shadow: Option<bool>, registryMatch: Option<string>)

  // One source's assessment: None when it registers nothing, otherwise the match, or None for an unregistered finding.
  datatype Assessment = Assessment(registryMatch: Option<string>)

  function Assess(r: Registration): Option<Assessment> {
    if r.shadow == Some(true) then Some(Assessment(None))
    else if r.shadow == Some(false) && r.registryMatch.Some? && r.registryMatch.value != "" then Some(Assessment(r.registryMatch))
    else None
  }

  function VerdictOf(r: Registration): Verdict {
    if Assess(r).None? then Unassessed
    else if Assess(r).value.registryMatch.None? then Shadow
    else Registered(Assess(r).value.registryMatch.value)
  }

  function Matches(items: seq<Assessment>): set<string> {
    set a | a in items && a.registryMatch.Some? :: a.registryMatch.value
  }

  function Sole(s: set<string>): string
    requires |s| == 1
  {
    SingletonSet(s);
    var x :| x in s;
    x
  }

  lemma SingletonSet(s: set<string>)
    requires |s| == 1
    ensures exists x :: s == {x}
    ensures forall x, y :: x in s && y in s ==> x == y
  {
    var x :| x in s;
    var rest := s - {x};
    assert s == {x} + rest && |rest| == 0;
  }

  lemma NotAlone(s: set<string>, x: string)
    requires x in s && |s| != 1
    ensures s - {x} != {}
  {
    assert s == {x} + (s - {x});
  }

  /** _merge_registration: unregistered in any source wins; different matches are ambiguous and leave the finding shadow. */
  function MergedRegistration(items: seq<Assessment>): Registration {
    if exists a :: a in items && a.registryMatch.None? then Registration(Some(true), None)
    else if |Matches(items)| == 1 then Registration(Some(false), Some(Sole(Matches(items))))
    else Registration(if Matches(items) != {} then Some(true) else None, None)
  }

  // The findings of one id in several reports; each is assessed only where the report reconciled against an inventory.
  function Assessments(rs: seq<Registration>): seq<Assessment> {
    if rs == [] then []
    else
      var n := |rs| - 1;
      Assessments(rs[..n]) + (if Assess(rs[n]).Some? then [Assess(rs[n]).value] else [])
  }

  function Verdicts(rs: seq<Registration>): seq<Verdict> {
    seq(|rs|, i requires 0 <= i < |rs| => VerdictOf(rs[i]))
  }

  lemma {:induction false} AssessmentsAre(rs: seq<Registration>)
    ensures forall a :: a in Assessments(rs) <==> exists r :: r in rs && Assess(r) == Some(a)
    decreases |rs|
  {
    if rs != [] {
      var n := |rs| - 1;
      AssessmentsAre(rs[..n]);
      assert rs == rs[..n] + [rs[n]];
    }
  }

  lemma MergedVerdict(items: seq<Assessment>)
    requires forall a :: a in items && a.registryMatch.Some? ==> a.registryMatch.value != ""
    ensures VerdictOf(MergedRegistration(items)).Unassessed? <==> items == []
    ensures VerdictOf(MergedRegistration(items)).Shadow? <==>
              (exists a :: a in items && a.registryMatch.None?)
              || (exists a, b :: a in items && b in items && a.registryMatch != b.registryMatch)
    ensures forall a :: a in items && VerdictOf(MergedRegistration(items)).Registered?
              ==> a.registryMatch == Some(VerdictOf(MergedRegistration(items)).match_)
  {
    var ms := Matches(items);
    assert forall a :: a in items && a.registryMatch.Some? ==> a.registryMatch.value in ms;
    if items != [] { assert items[0] in items; }
    if exists a :: a in items && a.registryMatch.None? {
    } else if |ms| == 1 {
      SingletonSet(ms);
      var m := Sole(ms);
      forall a | a in items ensures a.registryMatch == Some(m) { assert a.registryMatch.value in ms; }
      var a :| a in items && a.registryMatch.Some? && a.registryMatch.value in ms;
      assert m != "" by { var b :| b in items && b.registryMatch == Some(m); }
    } else if ms != {} {
      var x :| x in ms;
      NotAlone(ms, x);
      var y :| y in ms - {x};
      var a :| a in items && a.registryMatch == Some(x);
      var b :| b in items && b.registryMatch == Some(y);
      assert a.registryMatch != b.registryMatch;
    }
  }

  function Says(a: Assessment): Verdict {
    if a.registryMatch.None? then Shadow else Registered(a.registryMatch.value)
  }

  lemma OneMoreAssessment(items: seq<Assessment>, x: Assessment)
    requires forall a :: a in items + [x] && a.registryMatch.Some? ==> a.registryMatch.value != ""
    ensures VerdictOf(MergedRegistration(items + [x])) == JoinVerdicts(VerdictOf(MergedRegistration(items)), Says(x))
  {
    forall a ensures a in items + [x] <==> a in items || a == x { }
    MergedVerdict(items);
    MergedVerdict(items + [x]);
    hide MergedRegistration, VerdictOf;
    if items != [] { assert items[0] in items; }
  }

  /** The fleet's verdict is the join of the sources' verdicts. */
  lemma {:induction false} VerdictIsJoin(rs: seq<Registration>)
    requires rs != []
    ensures VerdictOf(MergedRegistration(Assessments(rs))) == Fold(JoinVerdicts, Verdicts(rs))
    decreases |rs|
  {
    var n := |rs| - 1;
    var rest, items := rs[..n], Assessments(rs[..n]);
    NonEmptyMatches(rest);
    NonEmptyMatches(rs);
    OneMoreVerdict(items, rs[n]);
    if n == 0 {
      assert items == [];
      MergedVerdict(items);
    } else {
      VerdictIsJoin(rest);
      FoldAppend(JoinVerdicts, Verdicts(rest), VerdictOf(rs[n]));
      assert Verdicts(rs) == Verdicts(rest) + [VerdictOf(rs[n])];
    }
  }

  lemma OneMoreVerdict(items: seq<Assessment>, r: Registration)
    requires forall a :: a in items && a.registryMatch.Some? ==> a.registryMatch.value != ""
    ensures var all := items + (if Assess(r).Some? then [Assess(r).value] else []);
            VerdictOf(MergedRegistration(all)) == JoinVerdicts(VerdictOf(MergedRegistration(items)), VerdictOf(r))
  {
    hide MergedRegistration;
    if Assess(r).Some? {
      OneMoreAssessment(items, Assess(r).value);
    } else {
      assert items + [] == items;
    }
  }

  lemma NonEmptyMatches(rs: seq<Registration>)
    ensures forall a :: a in Assessments(rs) && a.registryMatch.Some? ==> a.registryMatch.value != ""
  {
    AssessmentsAre(rs);
  }

  /** Any order or repetition of the sources gives the same verdict. */
  lemma VerdictIgnoresOrder(a: seq<Registration>, b: seq<Registration>)
    requires a != [] && b != [] && forall r :: r in a <==> r in b
    ensures VerdictOf(MergedRegistration(Assessments(a))) == VerdictOf(MergedRegistration(Assessments(b)))
  {
    VerdictsAreSemilattice();
    VerdictIsJoin(a);
    VerdictIsJoin(b);
    SameVerdicts(a, b);
    hide MergedRegistration, Assessments, VerdictOf, JoinVerdicts;
    SetDetermined(JoinVerdicts, Verdicts(a), Verdicts(b));
  }

  /** What a merged report says of a finding can stand for the reports it was merged from. */
  lemma VerdictIgnoresGrouping(a: seq<Registration>, b: seq<Registration>)
    requires a != []
    ensures VerdictOf(MergedRegistration(Assessments([MergedRegistration(Assessments(a))] + b)))
            == VerdictOf(MergedRegistration(Assessments(a + b)))
  {
    VerdictsAreSemilattice();
    hide MergedRegistration, Assessments, VerdictOf, JoinVerdicts, IsSemilattice, Fold;
    var m := MergedRegistration(Assessments(a));
    VerdictIsJoin(a);
    VerdictIsJoin(a + b);
    VerdictIsJoin([m] + b);
    assert Verdicts([m] + b) == [VerdictOf(m)] + Verdicts(b);
    assert Verdicts(a + b) == Verdicts(a) + Verdicts(b);
    Grouping(JoinVerdicts, Verdicts(a), Verdicts(b));
  }

  lemma SameVerdicts(a: seq<Registration>, b: seq<Registration>)
    requires forall r :: r in a <==> r in b
    ensures forall v :: v in Verdicts(a) <==> v in Verdicts(b)
  {
    forall v | v in Verdicts(a) ensures v in Verdicts(b) { VerdictCarries(a, b, v); }
    forall v | v in Verdicts(b) ensures v in Verdicts(a) { VerdictCarries(b, a, v); }
  }

  lemma VerdictCarries(a: seq<Registration>, b: seq<Registration>, v: Verdict)
    requires v in Verdicts(a) && forall r :: r in a ==> r in b
    ensures v in Verdicts(b)
  {
    var i :| 0 <= i < |a| && Verdicts(a)[i] == v;
    assert a[i] in a && a[i] in b;
    var j :| 0 <= j < |b| && b[j] == a[i];
    assert Verdicts(b)[j] == v;
  }

  // ---------------------------------------------------------------- risk

  // The score and danger score of one source, and the rest of its assessment.
  datatype Risk = Risk(score: real, danger: real, note: string)

  type Scores = (real, real)

  predicate Exceeds(a: Scores, b: Scores) {
    a.0 > b.0 || (a.0 == b.0 && a.1 > b.1)
  }

  function Higher(a: Scores, b: Scores): Scores {
    if Exceeds(b, a) then b else a
  }

  function ScoresOf(r: Risk): Scores {
    (r.score, r.danger)
  }

  lemma HigherIsSemilattice()
    ensures IsSemilattice(Higher)
  {
  }

  // ---------------------------------------------------------------- the accumulation loop

  // One finding of one source report; `present` says that the report reconciled against an inventory.
  datatype Source = Source(id: string, identity: string, registration: Registration, present: bool, risk: Risk)

  // A report without an inventory assesses nothing, whatever its findings say.
  function Assessed(s: Source): Registration {
    if s.present then s.registration else Registration(None, None)
  }

  datatype Kept = Kept(identity: string, risk: Risk, assessments: seq<Assessment>)

  function Accumulated(ss: seq<Source>): Option<map<string, Kept>> {
    if ss == [] then Some(map[])
    else
      var rest := Accumulated(ss[..|ss| - 1]);
      var s := ss[|ss| - 1];
      if rest.None? then None
      else if s.id !in rest.value then
        Some(rest.value[s.id := Kept(s.identity, s.risk, Assessments([Assessed(s)]))])
      else if rest.value[s.id].identity != s.identity then None
      else
        var k := rest.value[s.id];
        Some(rest.value[s.id := Kept(k.identity, if Exceeds(ScoresOf(s.risk), ScoresOf(k.risk)) then s.risk else k.risk,
                                     k.assessments + Assessments([Assessed(s)]))])
  }

  /** merge_reports, per finding: refuse an id used with two identities, keep the highest risk and every assessment. */
  method Accumulate(ss: seq<Source>) returns (kept: Option<map<string, Kept>>)
    ensures kept == Accumulated(ss)
  {
    var byId: map<string, Kept> := map[];
    for n := 0 to |ss|
      invariant Accumulated(ss[..n]) == Some(byId)
    {
      var s := ss[n];
      assert ss[..n + 1][..n] == ss[..n];
      var said := Assessments([Assessed(s)]);
      if s.id in byId {
        var k := byId[s.id];
        if k.identity != s.identity {
          StaysRefused(ss, n + 1);
          return None;
        }
        var risk := if Exceeds(ScoresOf(s.risk), ScoresOf(k.risk)) then s.risk else k.risk;
        byId := byId[s.id := Kept(k.identity, risk, k.assessments + said)];
      } else {
        byId := byId[s.id := Kept(s.identity, s.risk, said)];
      }
      hide Assessments, Exceeds;
    }
    assert ss[..|ss|] == ss;
    kept := Some(byId);
  }

  lemma {:induction false} StaysRefused(ss: seq<Source>, n: nat)
    requires n <= |ss| && Accumulated(ss[..n]).None?
    ensures Accumulated(ss).None?
    decreases |ss| - n
  {
    if n == |ss| {
      assert ss[..n] == ss;
    } else {
      assert ss[..n + 1][..n] == ss[..n];
      StaysRefused(ss, n + 1);
    }
  }

  function OfId(ss: seq<Source>, id: string): seq<Source> {
    if ss == [] then []
    else
      var n := |ss| - 1;
      OfId(ss[..n], id) + (if ss[n].id == id then [ss[n]] else [])
  }

  function Registrations(ss: seq<Source>): seq<Registration> {
    seq(|ss|, i requires 0 <= i < |ss| => Assessed(ss[i]))
  }

  function AllScores(ss: seq<Source>): seq<Scores> {
    seq(|ss|, i requires 0 <= i < |ss| => ScoresOf(ss[i].risk))
  }

  // What is kept for one id is what its sources give together.
  ghost predicate KeptFrom(k: Option<Kept>, own: seq<Source>) {
    if own == [] then k.None?
    else
      && k.Some? && k.value.assessments == Assessments(Registrations(own))
      && ScoresOf(k.value.risk) == Fold(Higher, AllScores(own))
      && forall s :: s in own ==> s.identity == k.value.identity
  }

  function KeptFor(kept: map<string, Kept>, id: string): Option<Kept> {
    if id in kept then Some(kept[id]) else None
  }

  function WithSource(k: Option<Kept>, s: Source): Kept {
    if k.None? then Kept(s.identity, s.risk, Assessments([Assessed(s)]))
    else Kept(k.value.identity, if Exceeds(ScoresOf(s.risk), ScoresOf(k.value.risk)) then s.risk else k.value.risk,
              k.value.assessments + Assessments([Assessed(s)]))
  }

  lemma {:induction false} AssessmentsSplit(a: seq<Registration>, r: Registration)
    ensures Assessments(a + [r]) == Assessments(a) + Assessments([r])
  {
    assert (a + [r])[..|a|] == a;
    assert [r][..0] == [] && Assessments([r][..0]) == [];
  }

  lemma KeptOneMore(k: Option<Kept>, own: seq<Source>, s: Source)
    requires KeptFrom(k, own) && (k.Some? ==> k.value.identity == s.identity)
    ensures KeptFrom(Some(WithSource(k, s)), own + [s])
  {
    hide Assessments, Fold, Exceeds;
    assert Registrations(own + [s]) == Registrations(own) + [Assessed(s)];
    assert AllScores(own + [s]) == AllScores(own) + [ScoresOf(s.risk)];
    if own == [] {
      assert own + [s] == [s] && Registrations(own) == [] && AllScores(own) == [];
      assert Registrations([s]) == [Assessed(s)] && AllScores([s]) == [ScoresOf(s.risk)];
      FoldOfOne(ScoresOf(s.risk));
    } else {
      AssessmentsSplit(Registrations(own), Assessed(s));
      FoldAppend(Higher, AllScores(own), ScoresOf(s.risk));
    }
  }

  lemma FoldOfOne(x: Scores)
    ensures Fold(Higher, [x]) == x
  {
  }

  /** Each id keeps the lexicographic maximum of its sources' (score, danger) and all their assessments, so its verdict is
      their join. */
  lemma {:induction false} AccumulatedIs(ss: seq<Source>, id: string)
    requires Accumulated(ss).Some?
    ensures KeptFrom(KeptFor(Accumulated(ss).value, id), OfId(ss, id))
    decreases |ss|
  {
    hide KeptFrom, Assessments, Exceeds;
    if ss == [] {
      NothingKept();
    } else {
      var n := |ss| - 1;
      var rest, s := ss[..n], ss[n];
      AccumulatedIs(rest, id);
      if s.id == id {
        KeptOneMore(KeptFor(Accumulated(rest).value, id), OfId(rest, id), s);
      } else {
        assert OfId(ss, id) == OfId(rest, id) + [] == OfId(rest, id);
      }
    }
  }

  lemma NothingKept()
    ensures KeptFrom(None, [])
  {
  }

  ghost predicate OneIdentityPerId(ss: seq<Source>) {
    forall s, t :: s in ss && t in ss && s.id == t.id ==> s.identity == t.identity
  }

  lemma {:induction false} OfIdIs(ss: seq<Source>, id: string)
    ensures forall s :: s in OfId(ss, id) <==> s in ss && s.id == id
    decreases |ss|
  {
    if ss != [] {
      var n := |ss| - 1;
      OfIdIs(ss[..n], id);
      assert ss == ss[..n] + [ss[n]];
    }
  }

  /** A fleet is refused exactly when two sources use one id for findings of different identity. */
  lemma {:induction false} RefusedWhen(ss: seq<Source>)
    ensures Accumulated(ss).Some? <==> OneIdentityPerId(ss)
    decreases |ss|
  {
    if ss != [] {
      var n := |ss| - 1;
      var rest, s := ss[..n], ss[n];
      RefusedWhen(rest);
      assert ss == rest + [s];
      assert OneIdentityPerId(ss) <==> OneIdentityPerId(rest) && forall t :: t in rest && t.id == s.id ==> t.identity == s.identity;
      if Accumulated(rest).Some? {
        AccumulatedIs(rest, s.id);
        OfIdIs(rest, s.id);
        var own := OfId(rest, s.id);
        if own != [] { assert own[0] in own; }
      }
    }
  }

  /** Order and repetition of the sources change neither whether a fleet is refused nor any verdict or score it keeps. */
  lemma FleetIgnoresOrder(a: seq<Source>, b: seq<Source>, id: string)
    requires forall s :: s in a <==> s in b
    ensures Accumulated(a).Some? == Accumulated(b).Some?
    ensures Accumulated(a).Some? ==>
              var x, y := Accumulated(a).value, Accumulated(b).value;
              (id in x <==> id in y)
              && (id in x ==> ScoresOf(x[id].risk) == ScoresOf(y[id].risk)
                              && VerdictOf(MergedRegistration(x[id].assessments)) == VerdictOf(MergedRegistration(y[id].assessments)))
  {
    RefusedWhen(a);
    RefusedWhen(b);
    if Accumulated(a).Some? {
      AccumulatedIs(a, id);
      AccumulatedIs(b, id);
      OfIdIs(a, id);
      OfIdIs(b, id);
      var p, q := OfId(a, id), OfId(b, id);
      hide Accumulated, OfId, OneIdentityPerId;
      if q != [] { assert q[0] in q; }
      if p != [] {
        assert p[0] in p;
        SourcesAgree(p, q);
      }
    }
  }

  lemma SourcesAgree(p: seq<Source>, q: seq<Source>)
    requires p != [] && q != [] && forall s :: s in p <==> s in q
    ensures Fold(Higher, AllScores(p)) == Fold(Higher, AllScores(q))
    ensures VerdictOf(MergedRegistration(Assessments(Registrations(p))))
            == VerdictOf(MergedRegistration(Assessments(Registrations(q))))
  {
    SourcesCarry(p, q);
    SourcesCarry(q, p);
    HigherIsSemilattice();
    SetDetermined(Higher, AllScores(p), AllScores(q));
    hide Assessments, MergedRegistration, VerdictOf;
    VerdictIgnoresOrder(Registrations(p), Registrations(q));
  }

  lemma SourcesCarry(p: seq<Source>, q: seq<Source>)
    requires forall s :: s in p ==> s in q
    ensures forall x :: x in AllScores(p) ==> x in AllScores(q)
    ensures forall r :: r in Registrations(p) ==> r in Registrations(q)
  {
    forall i | 0 <= i < |p| ensures AllScores(p)[i] in AllScores(q) && Registrations(p)[i] in Registrations(q) {
      assert p[i] in q;
      var j :| 0 <= j < |q| && q[j] == p[i];
      assert AllScores(q)[j] == AllScores(p)[i] && Registrations(q)[j] == Registrations(p)[i];
    }
  }
}
