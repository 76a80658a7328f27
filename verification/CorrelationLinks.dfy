/** The bounded link table of correlation (_pairs and _add_link in shadowscan/correlation.py). */
module CorrelationLinks {
  import opened Ordering
  import opened CorrelationKeys

  // ---------------------------------------------------------------- the pairs of one group

  datatype Pair = Pair(kind: string, first: string, second: string, left: Entry, right: Entry)

  predicate Conflicts(left: ScopeMap, right: ScopeMap) {
    exists k :: k in left && k in right && left[k] != right[k]
  }

  predicate Linkable(left: Entry, right: Entry) {
    !(left.connector == right.connector && left.surface == right.surface) && !Conflicts(left.scope, right.scope)
  }

  function PairsWith(kind: string, members: map<string, Entry>, x: string, ys: seq<string>): seq<Pair>
    requires x in members && forall y :: y in ys ==> y in members
  {
    if ys == [] then []
    else
      (if Linkable(members[x], members[ys[0]]) then [Pair(kind, x, ys[0], members[x], members[ys[0]])] else [])
      + PairsWith(kind, members, x, ys[1..])
  }

  // itertools.combinations over the ascending member ids.
  function GroupPairs(kind: string, members: map<string, Entry>, ids: seq<string>): seq<Pair>
    requires forall x :: x in ids ==> x in members
  {
    if ids == [] then []
    else PairsWith(kind, members, ids[0], ids[1..]) + GroupPairs(kind, members, ids[1..])
  }

  predicate Shared(members: map<string, Entry>) {
    1 < |members| <= MAX_GROUP
  }

  function PairsOfKeys(g: Groups, kind: string, keys: seq<string>): seq<Pair>
    requires forall x :: x in keys ==> (kind, x) in g
  {
    if keys == [] then []
    else
      var members := g[(kind, keys[0])];
      (if Shared(members) then GroupPairs(kind, members, Sorted(members.Keys)) else [])
      + PairsOfKeys(g, kind, keys[1..])
  }

  function KeysOf(g: Groups, kind: string): set<string> {
    set k | k in g && k.0 == kind :: k.1
  }

  function PairsOfKinds(g: Groups, kinds: seq<string>): seq<Pair> {
    if kinds == [] then []
    else PairsOfKeys(g, kinds[0], Sorted(KeysOf(g, kinds[0]))) + PairsOfKinds(g, kinds[1..])
  }

  /** _pairs: every comparable pair of every group of 2 to MAX_GROUP findings, in a fixed order. */
  function Pairs(g: Groups): seq<Pair> {
    PairsOfKinds(g, Sorted(set k | k in g :: k.0))
  }

  // p pairs two members of a shared group, in ascending order of id.
  ghost predicate PairIn(g: Groups, p: Pair, key: string) {
    && (p.kind, key) in g && Shared(g[(p.kind, key)])
    && p.first in g[(p.kind, key)] && p.second in g[(p.kind, key)] && Less(p.first, p.second)
    && p.left == g[(p.kind, key)][p.first] && p.right == g[(p.kind, key)][p.second]
    && Linkable(p.left, p.right)
  }

  lemma {:induction false} PairsWithIs(kind: string, members: map<string, Entry>, x: string, ys: seq<string>)
    requires x in members && forall y :: y in ys ==> y in members
    ensures forall p :: p in PairsWith(kind, members, x, ys) <==>
                        p.second in ys && p == Pair(kind, x, p.second, members[x], members[p.second])
                        && Linkable(p.left, p.right)
  {
    if ys != [] {
      PairsWithIs(kind, members, x, ys[1..]);
      assert ys == [ys[0]] + ys[1..];
      hide Linkable;
    }
  }

  ghost predicate PairOf(kind: string, members: map<string, Entry>, ids: seq<string>, p: Pair) {
    && p.kind == kind && p.first in ids && p.second in ids && Less(p.first, p.second)
    && p.first in members && p.second in members && p.left == members[p.first] && p.right == members[p.second]
    && Linkable(p.left, p.right)
  }

  lemma {:induction false} GroupPairsIs(kind: string, members: map<string, Entry>, ids: seq<string>)
    requires Ascending(ids) && forall x :: x in ids ==> x in members
    ensures forall p :: p in GroupPairs(kind, members, ids) <==> PairOf(kind, members, ids, p)
  {
    if ids != [] {
      var x, rest := ids[0], ids[1..];
      assert ids == [x] + rest;
      GroupPairsIs(kind, members, rest);
      PairsWithIs(kind, members, x, rest);
      forall y | y in rest ensures Less(x, y) && y != x && !Less(y, x) {
        var k :| 0 <= k < |rest| && rest[k] == y;
        assert Less(ids[0], ids[k + 1]);
        LessIsStrict(x, y);
      }
      forall p ensures p in GroupPairs(kind, members, ids) <==> PairOf(kind, members, ids, p) {
        hide Linkable, Less, GroupPairs;
        assert !Less(x, x) by { if Less(x, x) { LessIsStrict(x, x); } }
        assert p in GroupPairs(kind, members, ids) <==>
               p in PairsWith(kind, members, x, rest) || p in GroupPairs(kind, members, rest) by { Unfolds(kind, members, ids, p); }
      }
    }
  }

  lemma Unfolds(kind: string, members: map<string, Entry>, ids: seq<string>, p: Pair)
    requires ids != [] && forall x :: x in ids ==> x in members
    ensures p in GroupPairs(kind, members, ids) <==>
            p in PairsWith(kind, members, ids[0], ids[1..]) || p in GroupPairs(kind, members, ids[1..])
  {
    hide PairsWith;
  }

  lemma {:induction false} PairsOfKeysIs(g: Groups, kind: string, keys: seq<string>)
    requires forall x :: x in keys ==> (kind, x) in g
    ensures forall p :: p in PairsOfKeys(g, kind, keys) <==> p.kind == kind && exists x :: x in keys && PairIn(g, p, x)
  {
    if keys != [] {
      PairsOfKeysIs(g, kind, keys[1..]);
      var members := g[(kind, keys[0])];
      assert keys == [keys[0]] + keys[1..];
      GroupPairsIs(kind, members, Sorted(members.Keys));
      hide GroupPairs, Sorted, Linkable, Less;
      forall p ensures p in PairsOfKeys(g, kind, keys) <==> p.kind == kind && exists x :: x in keys && PairIn(g, p, x) {
        assert Shared(members) && PairOf(kind, members, Sorted(members.Keys), p) <==> p.kind == kind && PairIn(g, p, keys[0]);
        hide PairIn, PairOf;
      }
    }
  }

  lemma {:induction false} PairsOfKindsIs(g: Groups, kinds: seq<string>)
    ensures forall p :: p in PairsOfKinds(g, kinds) <==> p.kind in kinds && exists x :: PairIn(g, p, x)
  {
    if kinds != [] {
      PairsOfKindsIs(g, kinds[1..]);
      assert kinds == [kinds[0]] + kinds[1..];
      PairsOfKeysIs(g, kinds[0], Sorted(KeysOf(g, kinds[0])));
      hide Sorted, PairsOfKeys, Linkable, Less;
      forall p, x | PairIn(g, p, x) && p.kind == kinds[0] ensures x in Sorted(KeysOf(g, kinds[0])) {
        assert (p.kind, x) in g;
      }
      hide PairIn;
    }
  }

  /** Exactly the comparable pairs of the shared groups are visited. */
  lemma PairsAre(g: Groups)
    ensures forall p :: p in Pairs(g) <==> exists key :: PairIn(g, p, key)
  {
    var kinds := Sorted(set k | k in g :: k.0);
    PairsOfKindsIs(g, kinds);
    hide Sorted, PairsOfKinds, Linkable, Less;
    forall p, key | PairIn(g, p, key) ensures p.kind in kinds {
      assert (p.kind, key).0 == p.kind;
    }
  }

  // ---------------------------------------------------------------- the link table

  const MAX_PEERS := 24

  datatype Match = Match(kind: string, sourceFields: seq<string>, targetFields: seq<string>, scope: ScopeMap)

  type Peers = map<string, seq<Match>>
  type Links = map<string, Peers>

  function PeersOf(l: Links, a: string): Peers {
    if a in l then l[a] else map[]
  }

  function MatchesOf(l: Links, a: string, b: string): seq<Match> {
    if b in PeersOf(l, a) then PeersOf(l, a)[b] else []
  }

  function Mirror(m: Match): Match {
    Match(m.kind, m.targetFields, m.sourceFields, m.scope)
  }

  function MatchOf(p: Pair): Match {
    Match(p.kind, Sorted(p.left.fields), Sorted(p.right.fields), p.left.scope + p.right.scope)
  }

  predicate Full(l: Links, a: string, b: string) {
    b !in PeersOf(l, a) && |PeersOf(l, a)| >= MAX_PEERS
  }

  function Recorded(l: Links, a: string, b: string, m: Match): Links {
    var details := MatchesOf(l, a, b);
    l[a := PeersOf(l, a)[b := if m in details then details else details + [m]]]
  }

  /** What _add_link makes of the table: nothing when either end is full, otherwise the match at both ends. */
  function Linked(l: Links, p: Pair): Links {
    if Full(l, p.first, p.second) || Full(l, p.second, p.first) then l
    else Recorded(Recorded(l, p.first, p.second, MatchOf(p)), p.second, p.first, Mirror(MatchOf(p)))
  }

  function AllLinked(l: Links, ps: seq<Pair>): Links {
    if ps == [] then l else Linked(AllLinked(l, ps[..|ps| - 1]), ps[|ps| - 1])
  }

  class LinkTable {
    var links: Links

    constructor ()
      ensures links == map[]
    {
      links := map[];
    }

    method AddLink(p: Pair)
      modifies this
      ensures links == Linked(old(links), p)
    {
      var first, second := PeersOf(links, p.first), PeersOf(links, p.second);
      if (p.second !in first && |first| >= MAX_PEERS) || (p.first !in second && |second| >= MAX_PEERS) {
        return;
      }
      var scope := p.left.scope + p.right.scope;
      var own, other := Sorted(p.left.fields), Sorted(p.right.fields);
      Append(p.first, p.second, Match(p.kind, own, other, scope));
      Append(p.second, p.first, Match(p.kind, other, own, scope));
    }

    method Append(source: string, target: string, m: Match)
      modifies this
      ensures links == Recorded(old(links), source, target, m)
    {
      var peers := if source in links then links[source] else map[];
      var details := if target in peers then peers[target] else [];
      if m !in details { details := details + [m]; }
      links := links[source := peers[target := details]];
    }
  }

  // ---------------------------------------------------------------- what holds of the table after every link

  ghost predicate Mirrored(x: seq<Match>, y: seq<Match>) {
    |x| == |y| && forall i :: 0 <= i < |x| ==> y[i] == Mirror(x[i])
  }

  ghost predicate NoDuplicates(x: seq<Match>) {
    forall i, j :: 0 <= i < j < |x| ==> x[i] != x[j]
  }

  ghost predicate LinkOk(l: Links, a: string, b: string) {
    && (b in PeersOf(l, a) <==> a in PeersOf(l, b))
    && Mirrored(MatchesOf(l, a, b), MatchesOf(l, b, a))
    && NoDuplicates(MatchesOf(l, a, b))
    && (b in PeersOf(l, a) ==> MatchesOf(l, a, b) != [])
  }

  ghost predicate Good(l: Links) {
    && (forall a, b :: LinkOk(l, a, b))
    && (forall a :: a !in PeersOf(l, a) && |PeersOf(l, a)| <= MAX_PEERS)
  }

  lemma RecordedIs(l: Links, a: string, b: string, m: Match)
    ensures forall x :: x != a ==> PeersOf(Recorded(l, a, b, m), x) == PeersOf(l, x)
    ensures PeersOf(Recorded(l, a, b, m), a).Keys == PeersOf(l, a).Keys + {b}
    ensures forall x, y :: MatchesOf(Recorded(l, a, b, m), x, y) ==
                           if x == a && y == b && m !in MatchesOf(l, a, b) then MatchesOf(l, a, b) + [m] else MatchesOf(l, x, y)
  {
  }

  // The table after a pair is linked, in terms of the table before.
  lemma LinkedIs(l: Links, p: Pair)
    requires p.first != p.second && Good(l)
    requires !Full(l, p.first, p.second) && !Full(l, p.second, p.first)
    ensures PeersOf(Linked(l, p), p.first).Keys == PeersOf(l, p.first).Keys + {p.second}
    ensures PeersOf(Linked(l, p), p.second).Keys == PeersOf(l, p.second).Keys + {p.first}
    ensures forall x :: x != p.first && x != p.second ==> PeersOf(Linked(l, p), x) == PeersOf(l, x)
    ensures forall x, y :: {x, y} != {p.first, p.second} ==> MatchesOf(Linked(l, p), x, y) == MatchesOf(l, x, y)
    ensures MatchesOf(Linked(l, p), p.first, p.second) == Extended(MatchesOf(l, p.first, p.second), MatchOf(p))
    ensures MatchesOf(Linked(l, p), p.second, p.first) == Extended(MatchesOf(l, p.second, p.first), Mirror(MatchOf(p)))
  {
    var m := MatchOf(p);
    RecordedIs(l, p.first, p.second, m);
    RecordedIs(Recorded(l, p.first, p.second, m), p.second, p.first, Mirror(m));
    hide Recorded, PeersOf, MatchesOf, Good, MatchOf;
    forall x, y | {x, y} != {p.first, p.second} ensures !(x == p.first && y == p.second) && !(x == p.second && y == p.first) { }
  }

  function Extended(details: seq<Match>, m: Match): seq<Match> {
    if m in details then details else details + [m]
  }

  lemma ExtendedMirrors(x: seq<Match>, y: seq<Match>, m: Match)
    requires Mirrored(x, y) && NoDuplicates(x)
    ensures Mirrored(Extended(x, m), Extended(y, Mirror(m))) && NoDuplicates(Extended(x, m))
    ensures m in Extended(x, m)
  {
    if m in x {
      var i :| 0 <= i < |x| && x[i] == m;
      assert y[i] == Mirror(m);
    } else {
      forall i | 0 <= i < |y| ensures y[i] != Mirror(m) {
        assert y[i] == Mirror(x[i]) && x[i] != m;
      }
      assert Extended(x, m)[|x|] == m;
    }
  }

  lemma MirroredBack(x: seq<Match>, y: seq<Match>)
    requires Mirrored(x, y) && NoDuplicates(x)
    ensures Mirrored(y, x) && NoDuplicates(y)
  {
    forall i | 0 <= i < |y| ensures x[i] == Mirror(y[i]) { assert y[i] == Mirror(x[i]); }
    forall i, j | 0 <= i < j < |y| ensures y[i] != y[j] { assert x[i] != x[j] && x[i] == Mirror(y[i]) && x[j] == Mirror(y[j]); }
  }

  /** Linking keeps the table symmetric with mirrored fields, irreflexive and within the peer limit. */
  lemma LinkedKeepsGood(l: Links, p: Pair)
    requires Good(l) && p.first != p.second
    ensures Good(Linked(l, p))
  {
    if !Full(l, p.first, p.second) && !Full(l, p.second, p.first) {
      var k := Linked(l, p);
      LinkedIs(l, p);
      hide Linked, PeersOf, MatchesOf, Extended, Mirrored, NoDuplicates, MatchOf, Full;
      MatchesMirror(l, p);
      forall x, y ensures LinkOk(k, x, y) {
        assert LinkOk(l, x, y);
        LinkOkAfter(l, k, p.first, p.second, x, y);
      }
      hide LinkOk;
      forall x ensures x !in PeersOf(k, x) && |PeersOf(k, x)| <= MAX_PEERS {
        if x == p.first { PeerCount(l, k, p.first, p.second); }
        if x == p.second { PeerCount(l, k, p.second, p.first); }
        assert x !in PeersOf(l, x).Keys && (x in PeersOf(k, x) <==> x in PeersOf(k, x).Keys);
      }
    }
  }

  lemma MatchesMirror(l: Links, p: Pair)
    requires LinkOk(l, p.first, p.second)
    ensures var x, y := Extended(MatchesOf(l, p.first, p.second), MatchOf(p)), Extended(MatchesOf(l, p.second, p.first), Mirror(MatchOf(p)));
            Mirrored(x, y) && Mirrored(y, x) && NoDuplicates(x) && NoDuplicates(y) && x != []
  {
    hide MatchOf, MatchesOf, Extended, Mirrored, NoDuplicates;
    var x, y := MatchesOf(l, p.first, p.second), MatchesOf(l, p.second, p.first);
    ExtendedMirrors(x, y, MatchOf(p));
    MirroredBack(Extended(x, MatchOf(p)), Extended(y, Mirror(MatchOf(p))));
  }

  lemma PeerCount(l: Links, k: Links, a: string, b: string)
    requires !Full(l, a, b) && |PeersOf(l, a)| <= MAX_PEERS
    requires PeersOf(k, a).Keys == PeersOf(l, a).Keys + {b}
    ensures |PeersOf(k, a)| <= MAX_PEERS
  {
    assert |PeersOf(k, a)| == |PeersOf(k, a).Keys| && |PeersOf(l, a)| == |PeersOf(l, a).Keys|;
    if b in PeersOf(l, a) { assert PeersOf(l, a).Keys + {b} == PeersOf(l, a).Keys; }
  }

  lemma LinkOkAfter(l: Links, k: Links, a: string, b: string, x: string, y: string)
    requires LinkOk(l, x, y) && a != b
    requires PeersOf(k, a).Keys == PeersOf(l, a).Keys + {b} && PeersOf(k, b).Keys == PeersOf(l, b).Keys + {a}
    requires forall z :: z != a && z != b ==> PeersOf(k, z) == PeersOf(l, z)
    requires forall x, y :: {x, y} != {a, b} ==> MatchesOf(k, x, y) == MatchesOf(l, x, y)
    requires Mirrored(MatchesOf(k, a, b), MatchesOf(k, b, a)) && Mirrored(MatchesOf(k, b, a), MatchesOf(k, a, b))
    requires NoDuplicates(MatchesOf(k, a, b)) && NoDuplicates(MatchesOf(k, b, a))
    requires MatchesOf(k, a, b) != []
    ensures LinkOk(k, x, y)
  {
    hide Mirrored, NoDuplicates;
    if {x, y} == {a, b} {
      assert (x == a && y == b) || (x == b && y == a);
      assert MatchesOf(k, b, a) != [] by { assert |MatchesOf(k, b, a)| == |MatchesOf(k, a, b)| by { SameLength(MatchesOf(k, a, b), MatchesOf(k, b, a)); } }
      hide MatchesOf;
    } else {
      hide MatchesOf;
      assert y in PeersOf(k, x) <==> y in PeersOf(l, x) by { assert y in PeersOf(k, x).Keys <==> y in PeersOf(l, x).Keys; }
      assert x in PeersOf(k, y) <==> x in PeersOf(l, y) by { assert x in PeersOf(k, y).Keys <==> x in PeersOf(l, y).Keys; }
      assert {y, x} != {a, b};
    }
  }

  lemma SameLength(x: seq<Match>, y: seq<Match>)
    requires Mirrored(x, y)
    ensures |x| == |y|
  {
  }
}
