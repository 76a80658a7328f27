/** What a fleet keeps for one finding, read off the sources: the highest risk anyone gave it, and a registration only where
    every source that assessed it says the same. */
module FleetMeaning {
  import opened Semilattice
  import opened Fleet

  // ---------------------------------------------------------------- risk

  // a is no higher than b: a lower score, or the same score and no higher danger score.
  ghost predicate AtMost(a: Risk, b: Risk) {
    a.score < b.score || (a.score == b.score && a.danger <= b.danger)
  }

  /** The risk kept for an id is one of its sources', and none of theirs is higher. */
  lemma {:induction false} KeptRiskIsHighest(ss: seq<Source>, id: string)
    requires Accumulated(ss).Some?
    ensures id in Accumulated(ss).value <==> exists s :: s in ss && s.id == id
    ensures id in Accumulated(ss).value ==>
              var kept := Accumulated(ss).value[id].risk;
              && (forall s :: s in ss && s.id == id ==> AtMost(s.risk, kept))
              && (exists s :: s in ss && s.id == id && s.risk == kept)
    decreases |ss|
  {
    if ss != [] {
      var n := |ss| - 1;
      var rest, s := ss[..n], ss[n];
      assert forall x :: x in ss <==> x in rest || x == s;
      KeptRiskIsHighest(rest, id);
      hide Assessments;
    }
  }

  // ---------------------------------------------------------------- registration

  // A source that reconciled against an inventory found the finding unregistered, or registered as m.
  ghost predicate SaysShadow(s: Source) {
    s.present && s.registration.shadow == Some(true)
  }

  ghost predicate SaysRegistered(s: Source, m: string) {
    s.present && s.registration.shadow == Some(false) && s.registration.registryMatch == Some(m) && m != ""
  }

  ghost predicate SomeShadow(own: seq<Source>) {
    exists s :: s in own && SaysShadow(s)
  }

  ghost predicate SomeRegistered(own: seq<Source>, m: string) {
    exists s :: s in own && SaysRegistered(s, m)
  }

  lemma AssessmentMeans(s: Source, a: Assessment)
    ensures Assess(Assessed(s)) == Some(a) <==>
            (a.registryMatch.None? && SaysShadow(s)) || (a.registryMatch.Some? && SaysRegistered(s, a.registryMatch.value))
  {
  }

  lemma AssessmentsMean(own: seq<Source>, a: Assessment)
    ensures a in Assessments(Registrations(own)) <==>
            if a.registryMatch.None? then SomeShadow(own) else SomeRegistered(own, a.registryMatch.value)
  {
    AssessmentsAre(Registrations(own));
    forall s ensures Assess(Assessed(s)) == Some(a) <==>
                     (a.registryMatch.None? && SaysShadow(s)) || (a.registryMatch.Some? && SaysRegistered(s, a.registryMatch.value)) {
      AssessmentMeans(s, a);
    }
    hide Assess, Assessed, SaysShadow, SaysRegistered, Assessments;
    if r :| r in Registrations(own) && Assess(r) == Some(a) {
      var i :| 0 <= i < |own| && Registrations(own)[i] == r;
      assert own[i] in own;
    }
    if s :| s in own && Assess(Assessed(s)) == Some(a) {
      var i :| 0 <= i < |own| && own[i] == s;
      assert Registrations(own)[i] == Assessed(s);
    }
  }

  // What the merged finding says: unregistered, registered as one agent, or nothing.
  lemma MergedMeans(items: seq<Assessment>)
    ensures var r := MergedRegistration(items);
            && (r.shadow == Some(true) <==>
                || Assessment(None) in items
                || (exists m, n :: m != n && Assessment(Some(m)) in items && Assessment(Some(n)) in items))
            && (forall m :: r == Registration(Some(false), Some(m)) <==>
                  Assessment(Some(m)) in items && forall a :: a in items ==> a == Assessment(Some(m)))
            && (r == Registration(None, None) <==> items == [])
            && (r.registryMatch.Some? ==> r.shadow == Some(false)) && (r.shadow == Some(false) ==> r.registryMatch.Some?)
  {
    var ms := Matches(items);
    assert forall a :: a in items && a.registryMatch.Some? ==> a.registryMatch.value in ms;
    forall m ensures m in ms <==> Assessment(Some(m)) in items {
      if m in ms { var a :| a in items && a.registryMatch.Some? && a.registryMatch.value == m; assert a == Assessment(Some(m)); }
    }
    forall a | a in items && a.registryMatch.None? ensures a == Assessment(None) { }
    if items != [] { assert items[0] in items; }
    if |ms| == 1 {
      SingletonSet(ms);
      forall a | a in items && a.registryMatch.Some? ensures a.registryMatch.value == Sole(ms) { }
    } else if ms != {} {
      var x :| x in ms;
      NotAlone(ms, x);
      var y :| y in ms - {x};
    }
  }

  /** A merged finding is shadow exactly when a source that reconciled it found it unregistered, or two registered it as
      different agents; it is registered as m exactly when some source did and no source said anything else. */
  lemma FleetRegistrationMeans(ss: seq<Source>, id: string)
    requires Accumulated(ss).Some? && id in Accumulated(ss).value
    ensures var r, own := MergedRegistration(Accumulated(ss).value[id].assessments), OfId(ss, id);
            && (r.shadow == Some(true) <==>
                SomeShadow(own) || exists m, n :: m != n && SomeRegistered(own, m) && SomeRegistered(own, n))
            && (forall m :: r == Registration(Some(false), Some(m)) <==>
                  SomeRegistered(own, m) && !SomeShadow(own) && forall n :: SomeRegistered(own, n) ==> n == m)
            && (r == Registration(None, None) <==> !SomeShadow(own) && forall m :: !SomeRegistered(own, m))
  {
    AccumulatedIs(ss, id);
    OfIdIs(ss, id);
    var own, items := OfId(ss, id), Accumulated(ss).value[id].assessments;
    assert own != [] by { KeptRiskIsHighest(ss, id); var s :| s in ss && s.id == id; assert s in own; }
    assert items == Assessments(Registrations(own));
    forall a ensures a in items <==> if a.registryMatch.None? then SomeShadow(own) else SomeRegistered(own, a.registryMatch.value) {
      AssessmentsMean(own, a);
    }
    MergedMeans(items);
    hide MergedRegistration, Accumulated, OfId, Assessments, SomeShadow, SomeRegistered;
    assert forall m :: Assessment(Some(m)) in items <==> SomeRegistered(own, m);
    assert Assessment(None) in items <==> SomeShadow(own);
    if items != [] { assert items[0] in items; assert items[0] == Assessment(None) || items[0] == Assessment(Some(items[0].registryMatch.value)); }
  }
}
