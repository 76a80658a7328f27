/** Correlation links and their pruning (_correlate in shadowscan/correlation.py, _prune_related in shadowscan/engine.py). */
module Correlation {
  import opened Ordering
  import opened CorrelationKeys
  import opened CorrelationLinks

  // Required shared scope of a local identifier: only the Entra application id names one, the tenant.
  predicate ExactScope(kind: string, left: Entry, right: Entry) {
    || (left.global && right.global)
    || (if kind == ENTRA then ENTRA_TENANT in left.scope && ENTRA_TENANT in right.scope
        else exists k :: k in left.scope && k in right.scope)
  }

  function ExactOf(ps: seq<Pair>): (r: seq<Pair>)
    ensures forall p :: p in r <==> p in ps && ExactScope(p.kind, p.left, p.right)
  {
    if ps == [] then []
    else
      var n := |ps| - 1;
      assert ps == ps[..n] + [ps[n]];
      ExactOf(ps[..n]) + (if ExactScope(ps[n].kind, ps[n].left, ps[n].right) then [ps[n]] else [])
  }

  function LocalOf(ps: seq<Pair>): (r: seq<Pair>)
    ensures forall p :: p in r <==> p in ps && !ExactScope(p.kind, p.left, p.right)
  {
    if ps == [] then []
    else
      var n := |ps| - 1;
      assert ps == ps[..n] + [ps[n]];
      LocalOf(ps[..n]) + (if ExactScope(ps[n].kind, ps[n].left, ps[n].right) then [] else [ps[n]])
  }

  function ExactPairs(fs: seq<Facts>): seq<Pair> {
    ExactOf(Pairs(Grouped(fs, Identifiers)))
  }

  function FuzzyPairs(fs: seq<Facts>): seq<Pair> {
    LocalOf(Pairs(Grouped(fs, Identifiers))) + Pairs(Grouped(fs, Names))
  }

  function ExactTable(fs: seq<Facts>): Links {
    AllLinked(map[], ExactPairs(fs))
  }

  function FuzzyTable(fs: seq<Facts>): Links {
    AllLinked(map[], FuzzyPairs(fs))
  }

  lemma {:induction false} AllLinkedAppend(l: Links, a: seq<Pair>, b: seq<Pair>)
    ensures AllLinked(l, a + b) == AllLinked(AllLinked(l, a), b)
    decreases |b|
  {
    if b == [] {
      assert a + b == a;
    } else {
      AllLinkedAppend(l, a, b[..|b| - 1]);
      assert (a + b)[..|a + b| - 1] == a + b[..|b| - 1];
    }
  }

  method Link(fs: seq<Facts>) returns (exact: LinkTable, fuzzy: LinkTable)
    ensures fresh(exact) && fresh(fuzzy)
    ensures exact.links == ExactTable(fs) && fuzzy.links == FuzzyTable(fs)
  {
    hide Pairs, Linked, ExactScope, ExactOf, LocalOf;
    exact := new LinkTable();
    fuzzy := new LinkTable();
    var identifiers := Collect(fs, Identifiers);
    var names := Collect(fs, Names);
    var pairs := Pairs(identifiers);
    NothingLinked(pairs);
    for n := 0 to |pairs|
      invariant exact != fuzzy && fresh(exact) && fresh(fuzzy)
      invariant exact.links == AllLinked(map[], ExactOf(pairs[..n]))
      invariant fuzzy.links == AllLinked(map[], LocalOf(pairs[..n]))
    {
      var p := pairs[n];
      RouteOneMore(pairs, n);
      if ExactScope(p.kind, p.left, p.right) { exact.AddLink(p); } else { fuzzy.AddLink(p); }
    }
    assert pairs[..|pairs|] == pairs;
    var similar := Pairs(names);
    ghost var before := fuzzy.links;
    for n := 0 to |similar|
      invariant exact != fuzzy && fresh(exact) && fresh(fuzzy)
      invariant exact.links == ExactTable(fs)
      invariant fuzzy.links == AllLinked(before, similar[..n])
    {
      fuzzy.AddLink(similar[n]);
      assert similar[..n + 1][..n] == similar[..n];
    }
    assert similar[..|similar|] == similar;
    AllLinkedAppend(map[], LocalOf(pairs), similar);
  }

  lemma NothingLinked(ps: seq<Pair>)
    ensures AllLinked(map[], ExactOf(ps[..0])) == map[] && AllLinked(map[], LocalOf(ps[..0])) == map[]
  {
  }

  lemma RouteOneMore(ps: seq<Pair>, n: nat)
    requires n < |ps|
    ensures var p := ps[n];
            if ExactScope(p.kind, p.left, p.right)
            then AllLinked(map[], ExactOf(ps[..n + 1])) == Linked(AllLinked(map[], ExactOf(ps[..n])), p)
                 && LocalOf(ps[..n + 1]) == LocalOf(ps[..n])
            else AllLinked(map[], LocalOf(ps[..n + 1])) == Linked(AllLinked(map[], LocalOf(ps[..n])), p)
                 && ExactOf(ps[..n + 1]) == ExactOf(ps[..n])
  {
    hide Linked, ExactScope;
    var p, more := ps[n], ps[..n + 1];
    assert more[..n] == ps[..n] && more[n] == p;
    if ExactScope(p.kind, p.left, p.right) {
      assert ExactOf(more) == ExactOf(ps[..n]) + [p];
      assert (ExactOf(ps[..n]) + [p])[..|ExactOf(ps[..n])|] == ExactOf(ps[..n]);
    } else {
      assert LocalOf(more) == LocalOf(ps[..n]) + [p];
      assert (LocalOf(ps[..n]) + [p])[..|LocalOf(ps[..n])|] == LocalOf(ps[..n]);
    }
  }

  // ---------------------------------------------------------------- properties of a whole table

  ghost predicate Proper(ps: seq<Pair>) {
    forall p :: p in ps ==> p.first != p.second
  }

  lemma {:induction false} TableIsGood(ps: seq<Pair>)
    requires Proper(ps)
    ensures Good(AllLinked(map[], ps))
    decreases |ps|
  {
    if ps != [] {
      var n := |ps| - 1;
      assert ps == ps[..n] + [ps[n]];
      TableIsGood(ps[..n]);
      LinkedKeepsGood(AllLinked(map[], ps[..n]), ps[n]);
    }
  }

  // The match m, read from a to b, was recorded for one of the pairs.
  ghost predicate Explained(ps: seq<Pair>, a: string, b: string, m: Match) {
    exists p :: p in ps && ((p.first == a && p.second == b && m == MatchOf(p))
                            || (p.first == b && p.second == a && m == Mirror(MatchOf(p))))
  }

  lemma {:induction false} EveryMatchIsExplained(ps: seq<Pair>, a: string, b: string, m: Match)
    requires Proper(ps) && m in MatchesOf(AllLinked(map[], ps), a, b)
    ensures Explained(ps, a, b, m)
    decreases |ps|
  {
    if ps != [] {
      var n := |ps| - 1;
      var rest, p := ps[..n], ps[n];
      assert ps == rest + [p];
      var l := AllLinked(map[], rest);
      TableIsGood(rest);
      hide Good, MatchOf, Mirror, PeersOf, Full;
      assert AllLinked(map[], ps) == Linked(l, p);
      hide AllLinked, Linked, MatchesOf, Proper;
      if m in MatchesOf(l, a, b) {
        EveryMatchIsExplained(rest, a, b, m);
        ExplainedByMore(rest, p, a, b, m);
      } else {
        NewMatch(l, p, a, b, m);
        assert p in ps;
      }
    }
  }

  lemma ExplainedByMore(rest: seq<Pair>, p: Pair, a: string, b: string, m: Match)
    requires Explained(rest, a, b, m)
    ensures Explained(rest + [p], a, b, m)
  {
    hide MatchOf, Mirror;
    var q :| q in rest && ((q.first == a && q.second == b && m == MatchOf(q))
                           || (q.first == b && q.second == a && m == Mirror(MatchOf(q))));
    assert q in rest + [p];
  }

  lemma NewMatch(l: Links, p: Pair, a: string, b: string, m: Match)
    requires Good(l) && p.first != p.second
    requires m in MatchesOf(Linked(l, p), a, b) && m !in MatchesOf(l, a, b)
    ensures (p.first == a && p.second == b && m == MatchOf(p)) || (p.first == b && p.second == a && m == Mirror(MatchOf(p)))
  {
    LinkedIs(l, p);
    hide Linked, Good, MatchesOf, MatchOf, Mirror, PeersOf;
    assert {a, b} == {p.first, p.second};
    assert (a == p.first && b == p.second) || (a == p.second && b == p.first) by { SamePair(a, b, p.first, p.second); }
  }

  lemma SamePair(a: string, b: string, c: string, d: string)
    requires {a, b} == {c, d} && c != d
    ensures (a == c && b == d) || (a == d && b == c)
  {
    assert a in {c, d} && b in {c, d} && c in {a, b} && d in {a, b};
  }

  // A pair is linked, or one of its ends has no room.
  ghost predicate Covered(l: Links, p: Pair) {
    || MatchOf(p) in MatchesOf(l, p.first, p.second)
    || |PeersOf(l, p.first)| >= MAX_PEERS || |PeersOf(l, p.second)| >= MAX_PEERS
  }

  lemma LinkedCovers(l: Links, p: Pair, q: Pair)
    requires Good(l) && p.first != p.second
    requires q == p || Covered(l, q)
    ensures Covered(Linked(l, p), q)
  {
    if !Full(l, p.first, p.second) && !Full(l, p.second, p.first) {
      var k := Linked(l, p);
      LinkedIs(l, p);
      hide Linked, Good, MatchOf, Mirror;
      PeersGrow(l, k, p.first, p.second, q.first);
      PeersGrow(l, k, p.first, p.second, q.second);
      assert {q.first, q.second} == {p.first, p.second} ==> q.first == p.first || q.first == p.second by {
        if {q.first, q.second} == {p.first, p.second} { SamePair(q.first, q.second, p.first, p.second); }
      }
      assert forall m :: m in MatchesOf(l, q.first, q.second) ==> m in MatchesOf(k, q.first, q.second) by {
        if {q.first, q.second} == {p.first, p.second} { SamePair(q.first, q.second, p.first, p.second); }
      }
    }
  }

  lemma PeersGrow(l: Links, k: Links, a: string, b: string, x: string)
    requires PeersOf(k, a).Keys == PeersOf(l, a).Keys + {b} && PeersOf(k, b).Keys == PeersOf(l, b).Keys + {a}
    requires forall z :: z != a && z != b ==> PeersOf(k, z) == PeersOf(l, z)
    ensures |PeersOf(l, x)| <= |PeersOf(k, x)|
  {
    assert |PeersOf(k, x)| == |PeersOf(k, x).Keys| && |PeersOf(l, x)| == |PeersOf(l, x).Keys|;
    SubsetSize(PeersOf(l, x).Keys, PeersOf(k, x).Keys);
  }

  /** No comparable pair is left out unless an end already has MAX_PEERS peers. */
  lemma {:induction false} EveryPairIsCovered(ps: seq<Pair>, q: Pair)
    requires Proper(ps) && q in ps
    ensures Covered(AllLinked(map[], ps), q)
    decreases |ps|
  {
    var n := |ps| - 1;
    assert ps == ps[..n] + [ps[n]];
    TableIsGood(ps[..n]);
    if q != ps[n] { EveryPairIsCovered(ps[..n], q); }
    LinkedCovers(AllLinked(map[], ps[..n]), ps[n], q);
  }

  lemma PairsAreProper(fs: seq<Facts>)
    ensures Proper(ExactPairs(fs)) && Proper(FuzzyPairs(fs))
  {
    hide Pairs, Grouped, Linkable, ExactScope;
    forall g: Groups, p | p in Pairs(g) ensures p.first != p.second {
      PairsAre(g);
      var key :| PairIn(g, p, key);
      LessIsStrict(p.first, p.second);
    }
  }

  lemma TablesAreGood(fs: seq<Facts>)
    ensures Good(ExactTable(fs)) && Good(FuzzyTable(fs))
  {
    PairsAreProper(fs);
    hide Good, ExactPairs, FuzzyPairs;
    TableIsGood(ExactPairs(fs));
    TableIsGood(FuzzyPairs(fs));
  }

  // ---------------------------------------------------------------- what every link rests on

  // Two findings share a key in comparable scopes, and m records the fields they carry it in.
  ghost predicate Evidence(fs: seq<Facts>, pass: Pass, a: string, b: string, m: Match, x: Entry, y: Entry) {
    && (exists key :: Contributes(fs, pass, (m.kind, key), a, x) && Contributes(fs, pass, (m.kind, key), b, y))
    && a != b && Linkable(x, y)
    && m == Match(m.kind, Sorted(x.fields), Sorted(y.fields), x.scope + y.scope)
  }

  lemma PairIsEvidence(fs: seq<Facts>, pass: Pass, p: Pair)
    requires UniqueIds(fs) && p in Pairs(Grouped(fs, pass))
    ensures Evidence(fs, pass, p.first, p.second, MatchOf(p), p.left, p.right)
    ensures Evidence(fs, pass, p.second, p.first, Mirror(MatchOf(p)), p.right, p.left)
  {
    hide Pairs, Grouped, Contributes, Less, Sorted;
    var g := Grouped(fs, pass);
    PairsAre(g);
    GroupedIs(fs, pass);
    var key :| PairIn(g, p, key);
    LessIsStrict(p.first, p.second);
    assert Lookup(g, (p.kind, key), p.first) == Some(p.left) && Lookup(g, (p.kind, key), p.second) == Some(p.right);
    ScopesCommute(p.left.scope, p.right.scope);
  }

  lemma ScopesCommute(a: ScopeMap, b: ScopeMap)
    requires !Conflicts(a, b)
    ensures a + b == b + a && !Conflicts(b, a)
  {
  }

  /** Every exact match joins two findings that name the same identifier in scopes that agree wherever both speak, and
      the identifier is global or the shared scope is verified: for an Entra application id, the same tenant. */
  lemma ExactMatchIsVerified(fs: seq<Facts>, a: string, b: string, m: Match)
    requires UniqueIds(fs) && m in MatchesOf(ExactTable(fs), a, b)
    ensures exists x, y :: Evidence(fs, Identifiers, a, b, m, x, y) && ExactScope(m.kind, x, y) && ExactScope(m.kind, y, x)
  {
    PairsAreProper(fs);
    hide Pairs, Grouped, Evidence, Linkable, AllLinked, ExactOf, MatchOf, Mirror;
    EveryMatchIsExplained(ExactPairs(fs), a, b, m);
    var p :| p in ExactPairs(fs) && ((p.first == a && p.second == b && m == MatchOf(p))
                                     || (p.first == b && p.second == a && m == Mirror(MatchOf(p))));
    PairIsEvidence(fs, Identifiers, p);
    assert m.kind == p.kind by { MatchKind(p); }
    assert ExactScope(m.kind, p.left, p.right) && ExactScope(m.kind, p.right, p.left);
  }

  lemma MatchKind(p: Pair)
    ensures MatchOf(p).kind == p.kind && Mirror(MatchOf(p)).kind == p.kind
  {
  }

  /** A candidate match rests on a local identifier whose shared scope is not verified, or on a similar name. */
  lemma FuzzyMatchIsUnverified(fs: seq<Facts>, a: string, b: string, m: Match)
    requires UniqueIds(fs) && m in MatchesOf(FuzzyTable(fs), a, b)
    ensures exists x, y :: (Evidence(fs, Identifiers, a, b, m, x, y) && !ExactScope(m.kind, x, y))
                           || Evidence(fs, Names, a, b, m, x, y)
  {
    PairsAreProper(fs);
    hide Pairs, Grouped, Evidence, Linkable, AllLinked, LocalOf, MatchOf, Mirror;
    EveryMatchIsExplained(FuzzyPairs(fs), a, b, m);
    var p :| p in FuzzyPairs(fs) && ((p.first == a && p.second == b && m == MatchOf(p))
                                     || (p.first == b && p.second == a && m == Mirror(MatchOf(p))));
    assert m.kind == p.kind by { MatchKind(p); }
    if p in Pairs(Grouped(fs, Names)) {
      PairIsEvidence(fs, Names, p);
    } else {
      PairIsEvidence(fs, Identifiers, p);
      assert !ExactScope(m.kind, p.left, p.right) && !ExactScope(m.kind, p.right, p.left);
    }
  }

  /** The links do not depend on the order of the findings. */
  lemma TablesIgnoreOrder(a: seq<Facts>, b: seq<Facts>)
    requires UniqueIds(a) && UniqueIds(b) && forall f :: f in a <==> f in b
    ensures ExactTable(a) == ExactTable(b) && FuzzyTable(a) == FuzzyTable(b)
  {
    GroupedIgnoresOrder(a, b, Identifiers);
    GroupedIgnoresOrder(a, b, Names);
  }
}
