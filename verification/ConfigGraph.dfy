/** The bounded check of a configuration's object graph, which may share objects and contain cycles, and the recursive
    expansion that relies on it (_validate_config_graph and expand_env in shadowscan/config.py). */
module ConfigGraph {
  // ---------------------------------------------------------------- object graphs

  type Ref = nat

  datatype Object =
    | Scalar
    | Number(finite: bool)
    | Text(text: string)
    | ListOf(items: seq<Ref>)
    | Collection(members: seq<Ref>)
    | MappingOf(entries: seq<(Ref, Ref)>, isDict: bool)

  type Graph = map<Ref, Object>

  const MAX_NODES := 100000
  const MAX_DEPTH := 64

  function Flattened(entries: seq<(Ref, Ref)>): (r: seq<Ref>)
    ensures forall c :: c in r <==> exists e :: e in entries && (e.0 == c || e.1 == c)
  {
    if entries == [] then []
    else
      var n := |entries| - 1;
      assert entries == entries[..n] + [entries[n]];
      Flattened(entries[..n]) + [entries[n].0, entries[n].1]
  }

  // What the traversal visits below an object, in order: a mapping's keys and values, a container's elements.
  function Children(g: Graph, r: Ref): seq<Ref> {
    if r !in g then []
    else
      match g[r]
      case ListOf(items) => items
      case Collection(members) => members
      case MappingOf(entries, _) => Flattened(entries)
      case _ => []
  }

  predicate IsContainer(g: Graph, r: Ref) {
    r in g && (g[r].ListOf? || g[r].Collection? || g[r].MappingOf?)
  }

  predicate FiniteAt(g: Graph, r: Ref) {
    r in g && g[r].Number? ==> g[r].finite
  }

  // ---------------------------------------------------------------- the unfolding

  // The unfolding from r is at most d edges deep and, if asked, holds only finite numbers.
  ghost predicate Good(g: Graph, r: Ref, d: int, rejectNonfinite: bool)
    decreases d + 1
  {
    && d >= 0
    && (rejectNonfinite ==> FiniteAt(g, r))
    && forall c :: c in Children(g, r) ==> Good(g, c, d - 1, rejectNonfinite)
  }

  // The number of nodes of the unfolding, down to depth d.
  ghost function Count(g: Graph, r: Ref, d: int): nat
    decreases d + 1, 0, 1
  {
    if d < 0 then 0 else 1 + CountAll(g, Children(g, r), d - 1)
  }

  ghost function CountAll(g: Graph, rs: seq<Ref>, d: int): nat
    decreases d + 1, |rs| + 1, 0
  {
    if rs == [] then 0
    else CountAll(g, rs[..|rs| - 1], d) + Count(g, rs[|rs| - 1], d)
  }

  // ---------------------------------------------------------------- paths

  ghost predicate Path(g: Graph, p: seq<Ref>) {
    p != [] && forall i :: 0 <= i < |p| - 1 ==> p[i + 1] in Children(g, p[i])
  }

  ghost predicate PathFrom(g: Graph, r: Ref, p: seq<Ref>) {
    Path(g, p) && p[0] == r
  }

  // No path from r has more than d edges, and every number a path reaches is finite if asked.
  ghost predicate Within(g: Graph, r: Ref, d: int, reject: bool) {
    forall p :: PathFrom(g, r, p) ==> |p| - 1 <= d && (reject ==> FiniteAt(g, p[|p| - 1]))
  }

  lemma {:induction false} GoodBoundsPath(g: Graph, p: seq<Ref>, d: int, reject: bool)
    requires Path(g, p) && Good(g, p[0], d, reject)
    ensures |p| - 1 <= d && (reject ==> FiniteAt(g, p[|p| - 1]))
    decreases |p|
  {
    if |p| > 1 {
      TailIsPath(g, p);
      assert p[0 + 1] in Children(g, p[0]);
      GoodBoundsPath(g, p[1..], d - 1, reject);
    }
  }

  lemma {:induction false} PathsMakeGood(g: Graph, r: Ref, d: int, reject: bool)
    requires Within(g, r, d, reject)
    ensures Good(g, r, d, reject)
    decreases d + 1
  {
    assert PathFrom(g, r, [r]);
    forall c | c in Children(g, r) ensures Good(g, c, d - 1, reject) {
      hide Within, PathFrom;
      WithinChild(g, r, c, d, reject);
      PathsMakeGood(g, c, d - 1, reject);
    }
    hide Path;
  }

  lemma WithinChild(g: Graph, r: Ref, c: Ref, d: int, reject: bool)
    requires Within(g, r, d, reject) && c in Children(g, r)
    ensures Within(g, c, d - 1, reject) && d >= 1
  {
    forall p | PathFrom(g, c, p) ensures |p| - 1 <= d - 1 && (reject ==> FiniteAt(g, p[|p| - 1])) {
      ConsIsPath(g, r, p);
      assert ([r] + p)[|p|] == p[|p| - 1];
    }
    assert PathFrom(g, c, [c]) by { Trivial(g, c); }
  }

  lemma Trivial(g: Graph, c: Ref)
    ensures PathFrom(g, c, [c])
  {
  }

  /** Good means what it says of paths. */
  lemma GoodMeansPaths(g: Graph, r: Ref, d: int, reject: bool)
    ensures Good(g, r, d, reject) <==> Within(g, r, d, reject)
  {
    if Good(g, r, d, reject) {
      forall p | PathFrom(g, r, p) ensures |p| - 1 <= d && (reject ==> FiniteAt(g, p[|p| - 1])) {
        GoodBoundsPath(g, p, d, reject);
      }
    }
    if Within(g, r, d, reject) { PathsMakeGood(g, r, d, reject); }
  }

  lemma TailIsPath(g: Graph, p: seq<Ref>)
    requires Path(g, p) && |p| > 1
    ensures PathFrom(g, p[1], p[1..])
  {
    forall i | 0 <= i < |p[1..]| - 1 ensures p[1..][i + 1] in Children(g, p[1..][i]) {
      assert p[i + 1 + 1] in Children(g, p[i + 1]);
    }
  }

  lemma ConsIsPath(g: Graph, r: Ref, p: seq<Ref>)
    requires Path(g, p) && p[0] in Children(g, r)
    ensures PathFrom(g, r, [r] + p)
  {
    var q := [r] + p;
    forall i | 0 <= i < |q| - 1 ensures q[i + 1] in Children(g, q[i]) {
      if i > 0 { assert q[i] == p[i - 1] && q[i + 1] == p[i - 1 + 1]; }
    }
  }

  // A closed walk through r.
  ghost predicate OnCycle(g: Graph, r: Ref) {
    exists p :: PathFrom(g, r, p) && |p| > 1 && p[|p| - 1] == r
  }

  // Going round a cycle shows that no depth is enough.
  lemma {:induction false} CycleIsNotGood(g: Graph, r: Ref, d: int, reject: bool)
    requires OnCycle(g, r) && d >= -1
    ensures !Good(g, r, d, reject)
    decreases d + 1
  {
    if d >= 0 {
      var p :| PathFrom(g, r, p) && |p| > 1 && p[|p| - 1] == r;
      var e := d - (|p| - 1);
      if e >= -1 {
        CycleIsNotGood(g, r, e, reject);
      }
      NotGoodBehind(g, p, d, reject);
    }
  }

  // If the end of a path is not good with what depth is left there, its start is not good.
  lemma {:induction false} NotGoodBehind(g: Graph, p: seq<Ref>, d: int, reject: bool)
    requires Path(g, p) && !Good(g, p[|p| - 1], d - (|p| - 1), reject)
    ensures !Good(g, p[0], d, reject)
    decreases |p|
  {
    if |p| > 1 {
      TailIsPath(g, p);
      assert p[1..][|p| - 2] == p[|p| - 1];
      NotGoodBehind(g, p[1..], d - 1, reject);
      assert p[0 + 1] in Children(g, p[0]);
    }
  }

  /** An accepted graph has no cycle anywhere below its root. */
  lemma AcceptedIsAcyclic(g: Graph, root: Ref, d: int, reject: bool, p: seq<Ref>)
    requires Good(g, root, d, reject) && PathFrom(g, root, p)
    ensures !OnCycle(g, p[|p| - 1])
  {
    var x := p[|p| - 1];
    GoodMeansPaths(g, root, d, reject);
    if OnCycle(g, x) {
      CycleIsNotGood(g, x, d - (|p| - 1), reject);
      NotGoodBehind(g, p, d, reject);
    }
  }

  ghost predicate Reaches(g: Graph, a: Ref, b: Ref) {
    exists p :: PathFrom(g, a, p) && p[|p| - 1] == b
  }

  lemma ReachesItself(g: Graph, a: Ref)
    ensures Reaches(g, a, a)
  {
    assert PathFrom(g, a, [a]);
  }

  lemma ReachesBelow(g: Graph, a: Ref, c: Ref, b: Ref)
    requires c in Children(g, a) && Reaches(g, c, b)
    ensures Reaches(g, a, b)
  {
    var p :| PathFrom(g, c, p) && p[|p| - 1] == b;
    ConsIsPath(g, a, p);
    assert ([a] + p)[|p|] == b;
  }

  // ---------------------------------------------------------------- the traversal

  datatype Verdict = Accepted | LimitExceeded | NotFinite | Cyclic

  ghost predicate Distinct(p: seq<Ref>) {
    forall i, j :: 0 <= i < j < |p| ==> p[i] != p[j]
  }

  // The path set holds exactly the objects of a trail, all different, that leads to item.
  ghost predicate LeadsTo(g: Graph, trail: seq<Ref>, active: set<Ref>, item: Ref) {
    Path(g, trail + [item]) && Distinct(trail) && forall a :: a in active <==> a in trail
  }

  // A path from r that goes below MAX_DEPTH and does not return to any object before its last one.
  ghost predicate TooDeep(g: Graph, r: Ref) {
    exists p :: PathFrom(g, r, p) && |p| == MAX_DEPTH + 2 && Distinct(p[..MAX_DEPTH + 1])
  }

  class Validator {
    const graph: Graph
    const rejectNonfinite: bool
    var remaining: int
    var active: set<Ref>

    constructor (graph: Graph, rejectNonfinite: bool)
      ensures this.graph == graph && this.rejectNonfinite == rejectNonfinite
      ensures remaining == MAX_NODES && active == {}
    {
      this.graph, this.rejectNonfinite := graph, rejectNonfinite;
      remaining, active := MAX_NODES, {};
    }

    /** One call of the nested `validate`: it accepts exactly when the unfolding below the object fits what is left, and it
        leaves the set of objects on the current path as it found it, also when it fails. */
    method Validate(item: Ref, depth: nat, ghost trail: seq<Ref>) returns (v: Verdict)
      requires depth <= MAX_DEPTH + 1 && remaining >= 0
      requires |trail| == depth && LeadsTo(graph, trail, active, item)
      modifies this
      ensures active == old(active)
      ensures v.Accepted? <==>
              Good(graph, item, MAX_DEPTH - depth, rejectNonfinite) && Count(graph, item, MAX_DEPTH - depth) <= old(remaining)
      ensures v.Accepted? ==> remaining == old(remaining) - Count(graph, item, MAX_DEPTH - depth)
      ensures v.Cyclic? ==> exists r :: Reaches(graph, item, r) && OnCycle(graph, r)
      ensures v.NotFinite? ==> rejectNonfinite && exists r :: Reaches(graph, item, r) && !FiniteAt(graph, r)
      ensures v.LimitExceeded? ==>
                Count(graph, item, MAX_DEPTH - depth) > old(remaining) || TooDeep(graph, (trail + [item])[0])
      decreases MAX_DEPTH + 1 - depth, 1
    {
      ReachesItself(graph, item);
      assert (trail + [item])[..depth] == trail;
      remaining := remaining - 1;
      if remaining < 0 || depth > MAX_DEPTH {
        return LimitExceeded;
      }
      if rejectNonfinite && !FiniteAt(graph, item) {
        return NotFinite;
      }
      if !IsContainer(graph, item) {
        assert Children(graph, item) == [];
        return Accepted;
      }
      if item in active {
        TrailCloses(graph, trail, item);
        CycleIsNotGood(graph, item, MAX_DEPTH - depth, rejectNonfinite);
        return Cyclic;
      }
      active := active + {item};
      v := ValidateAll(item, Children(graph, item), depth, trail + [item]);
      active := active - {item};
    }

    method ValidateAll(item: Ref, children: seq<Ref>, depth: nat, ghost trail: seq<Ref>) returns (v: Verdict)
      requires depth <= MAX_DEPTH && remaining >= 0 && children == Children(graph, item)
      requires |trail| == depth + 1 && trail[depth] == item && Path(graph, trail) && Distinct(trail)
      requires forall a :: a in active <==> a in trail
      modifies this
      ensures active == old(active)
      ensures v.Accepted? <==>
              (forall c :: c in children ==> Good(graph, c, MAX_DEPTH - depth - 1, rejectNonfinite))
              && CountAll(graph, children, MAX_DEPTH - depth - 1) <= old(remaining)
      ensures v.Accepted? ==> remaining == old(remaining) - CountAll(graph, children, MAX_DEPTH - depth - 1)
      ensures v.Cyclic? ==> exists r :: Reaches(graph, item, r) && OnCycle(graph, r)
      ensures v.NotFinite? ==> rejectNonfinite && exists r :: Reaches(graph, item, r) && !FiniteAt(graph, r)
      ensures v.LimitExceeded? ==>
                CountAll(graph, children, MAX_DEPTH - depth - 1) > old(remaining) || TooDeep(graph, trail[0])
      decreases MAX_DEPTH + 1 - depth, 0
    {
      var d := MAX_DEPTH - depth - 1;
      for n := 0 to |children|
        invariant active == old(active) && remaining >= 0
        invariant forall c :: c in children[..n] ==> Good(graph, c, d, rejectNonfinite)
        invariant remaining == old(remaining) - CountAll(graph, children[..n], d)
      {
        var c := children[n];
        assert children[..n + 1] == children[..n] + [c] && children[..n + 1][..n] == children[..n];
        TrailExtends(graph, trail, active, c);
        v := Validate(c, depth + 1, trail);
        if !v.Accepted? {
          CountGrows(graph, children, n + 1, d);
          forall r | Reaches(graph, c, r) ensures Reaches(graph, item, r) { ReachesBelow(graph, item, c, r); }
          return;
        }
      }
      assert children[..|children|] == children;
      v := Accepted;
    }
  }

  lemma {:induction false} CountGrows(g: Graph, rs: seq<Ref>, n: nat, d: int)
    requires n <= |rs|
    ensures CountAll(g, rs[..n], d) <= CountAll(g, rs, d)
    decreases |rs|
  {
    if n == |rs| {
      assert rs[..n] == rs;
    } else {
      var m := |rs| - 1;
      assert rs[..m][..n] == rs[..n];
      CountGrows(g, rs[..m], n, d);
    }
  }

  lemma TrailExtends(g: Graph, trail: seq<Ref>, active: set<Ref>, c: Ref)
    requires Path(g, trail) && Distinct(trail) && c in Children(g, trail[|trail| - 1])
    requires forall a :: a in active <==> a in trail
    ensures LeadsTo(g, trail, active, c) && (trail + [c])[0] == trail[0]
  {
    var q := trail + [c];
    forall i | 0 <= i < |q| - 1 ensures q[i + 1] in Children(g, q[i]) {
      if i < |trail| - 1 { assert trail[i + 1] in Children(g, trail[i]); }
    }
  }

  lemma TrailCloses(g: Graph, trail: seq<Ref>, item: Ref)
    requires Path(g, trail + [item]) && item in trail
    ensures OnCycle(g, item)
  {
    var i :| 0 <= i < |trail| && trail[i] == item;
    var p, q := trail + [item], (trail + [item])[i..];
    forall j | 0 <= j < |q| - 1 ensures q[j + 1] in Children(g, q[j]) {
      assert p[i + j + 1] in Children(g, p[i + j]);
    }
    assert PathFrom(g, item, q) && q[|q| - 1] == item;
  }

  lemma NothingLeads(g: Graph, r: Ref)
    ensures LeadsTo(g, [], {}, r) && ([] + [r])[0] == r
  {
  }

  /** _validate_config_graph returns normally exactly when no path from the root has more than MAX_DEPTH edges, the
      unfolding has at most MAX_NODES nodes and, if asked, every number reached is finite. */
  method ValidateConfigGraph(g: Graph, root: Ref, rejectNonfinite: bool) returns (v: Verdict)
    ensures v.Accepted? <==>
            Within(g, root, MAX_DEPTH, rejectNonfinite) && Count(g, root, MAX_DEPTH) <= MAX_NODES
    ensures v.Accepted? ==> Good(g, root, MAX_DEPTH, rejectNonfinite)
    ensures v.Cyclic? ==> exists r :: Reaches(g, root, r) && OnCycle(g, r)
    ensures v.NotFinite? ==> rejectNonfinite && exists r :: Reaches(g, root, r) && !FiniteAt(g, r)
    ensures v.LimitExceeded? ==> Count(g, root, MAX_DEPTH) > MAX_NODES || TooDeep(g, root)
  {
    hide Good, Count, CountAll, Path, PathFrom, Within, LeadsTo, TooDeep, OnCycle, FiniteAt, Children;
    var validator := new Validator(g, rejectNonfinite);
    assert LeadsTo(g, [], {}, root) && ([] + [root])[0] == root by { NothingLeads(g, root); }
    GoodMeansPaths(g, root, MAX_DEPTH, rejectNonfinite);
    v := validator.Validate(root, 0, []);
  }

  // ---------------------------------------------------------------- expansion

  // What expand_env builds: strings with their variables replaced, and copies of the lists and dictionaries around them.
  datatype Value = Kept(ref: Ref) | Expanded(text: string) | ListValue(items: seq<Value>) | DictValue(keys: seq<Ref>, values: seq<Value>)

  datatype Result = Ok(value: Value) | Missing
  datatype Option<T> = None | Some(value: T)

  function Size(v: Value): nat {
    match v
    case ListValue(items) => 1 + SizeAll(items)
    case DictValue(_, values) => 1 + SizeAll(values)
    case _ => 1
  }

  function SizeAll(vs: seq<Value>): nat {
    if vs == [] then 0 else SizeAll(vs[..|vs| - 1]) + Size(vs[|vs| - 1])
  }

  lemma SizeAppend(vs: seq<Value>, v: Value)
    ensures SizeAll(vs + [v]) == SizeAll(vs) + Size(v)
  {
    assert (vs + [v])[..|vs|] == vs;
  }

  // v is the expansion of r: text with its variables replaced, a list of expansions, a dictionary with the same keys and
  // expanded values, and anything else as it was.
  ghost predicate IsExpansion(g: Graph, r: Ref, resolve: string -> string, v: Value)
    decreases v
  {
    if r !in g then v == Kept(r)
    else
      match g[r]
      case Text(text) => v == Expanded(resolve(text))
      case ListOf(items) => v.ListValue? && |v.items| == |items| && forall i :: 0 <= i < |items| ==> IsExpansion(g, items[i], resolve, v.items[i])
      case MappingOf(entries, isDict) =>
        if isDict then
          && v.DictValue? && |v.keys| == |v.values| == |entries|
          && (forall i :: 0 <= i < |entries| ==> v.keys[i] == entries[i].0)
          && forall i :: 0 <= i < |entries| ==> IsExpansion(g, entries[i].1, resolve, v.values[i])
        else v == Kept(r)
      case _ => v == Kept(r)
  }

  /** An object has one expansion at most. */
  lemma {:induction false} ExpansionIsUnique(g: Graph, r: Ref, resolve: string -> string, v: Value, w: Value)
    requires IsExpansion(g, r, resolve, v) && IsExpansion(g, r, resolve, w)
    ensures v == w
    decreases v
  {
    if r in g && g[r].ListOf? {
      forall i | 0 <= i < |v.items| ensures v.items[i] == w.items[i] {
        ExpansionIsUnique(g, g[r].items[i], resolve, v.items[i], w.items[i]);
      }
    }
    if r in g && g[r].MappingOf? && g[r].isDict {
      forall i | 0 <= i < |v.values| ensures v.values[i] == w.values[i] {
        ExpansionIsUnique(g, g[r].entries[i].1, resolve, v.values[i], w.values[i]);
      }
      assert v.keys == w.keys;
    }
  }

  // Some text that the expansion of r goes into has a variable that is missing.
  ghost predicate Lacks(g: Graph, r: Ref, missing: string -> bool, d: int)
    decreases d + 1
  {
    && d >= 0 && r in g
    && ((g[r].Text? && missing(g[r].text)) || exists c :: c in Copied(g, r) && Lacks(g, c, missing, d - 1))
  }

  /** On every accepted graph the recursion of expand_env ends, and it builds no more than was counted. `resolve` replaces
      the variables of a string; None stands for a variable that is missing and has no fallback. */
  method ExpandEnv(g: Graph, r: Ref, resolve: string -> string, missing: string -> bool, ghost d: int, ghost reject: bool)
    returns (result: Result)
    requires Good(g, r, d, reject)
    ensures result.Ok? ==> IsExpansion(g, r, resolve, result.value) && Size(result.value) <= Count(g, r, d)
    ensures result.Missing? <==> Lacks(g, r, missing, d)
    decreases d, 0
  {
    ExpandedIsBelow(g, r, d, reject);
    LacksBelow(g, r, missing, d);
    hide Good, Count, CountAll, SizeAll, Lacks, IsExpansion;
    LeafExpansion(g, r, resolve);
    if r !in g {
      result := Ok(Kept(r));
    } else if g[r].Text? {
      result := if missing(g[r].text) then Missing else Ok(Expanded(resolve(g[r].text)));
    } else if g[r].ListOf? || (g[r].MappingOf? && g[r].isDict) {
      var values := ExpandAll(g, Copied(g, r), resolve, missing, d - 1, reject);
      if values.Some? { PartsExpand(g, r, resolve, values.value); }
      result := if values.None? then Missing
                else if g[r].ListOf? then Ok(ListValue(values.value))
                else Ok(DictValue(Firsts(g[r].entries), values.value));
    } else {
      result := Ok(Kept(r));
    }
  }

  lemma LeafExpansion(g: Graph, r: Ref, resolve: string -> string)
    ensures r !in g || (!g[r].Text? && !g[r].ListOf? && !(g[r].MappingOf? && g[r].isDict)) ==> IsExpansion(g, r, resolve, Kept(r))
    ensures r in g && g[r].Text? ==> IsExpansion(g, r, resolve, Expanded(resolve(g[r].text)))
  {
  }

  lemma PartsExpand(g: Graph, r: Ref, resolve: string -> string, values: seq<Value>)
    requires r in g && |values| == |Copied(g, r)|
    requires forall i :: 0 <= i < |values| ==> IsExpansion(g, Copied(g, r)[i], resolve, values[i])
    ensures g[r].ListOf? ==> IsExpansion(g, r, resolve, ListValue(values))
    ensures g[r].MappingOf? && g[r].isDict ==> IsExpansion(g, r, resolve, DictValue(Firsts(g[r].entries), values))
  {
  }

  lemma LacksBelow(g: Graph, r: Ref, missing: string -> bool, d: int)
    requires d >= 0
    ensures Lacks(g, r, missing, d) <==>
            r in g && if g[r].Text? then missing(g[r].text) else exists c :: c in Copied(g, r) && Lacks(g, c, missing, d - 1)
  {
  }

  // The objects expand_env goes into: a list's elements or a dictionary's values.
  function Copied(g: Graph, r: Ref): seq<Ref>
    requires r in g
  {
    if g[r].ListOf? then g[r].items else if g[r].MappingOf? && g[r].isDict then Seconds(g[r].entries) else []
  }

  lemma ExpandedIsBelow(g: Graph, r: Ref, d: int, reject: bool)
    requires Good(g, r, d, reject)
    ensures d >= 0 && Count(g, r, d) >= 1
    ensures r in g ==> (forall c :: c in Copied(g, r) ==> Good(g, c, d - 1, reject))
                       && 1 + CountAll(g, Copied(g, r), d - 1) <= Count(g, r, d)
  {
    GoodBelow(g, r, d, reject);
    if r in g && g[r].MappingOf? && g[r].isDict {
      CountOfValues(g, g[r].entries, d - 1);
      forall c | c in Seconds(g[r].entries) ensures c in Children(g, r) {
        var i :| 0 <= i < |g[r].entries| && Seconds(g[r].entries)[i] == c;
        assert g[r].entries[i] in g[r].entries;
      }
    }
    hide Good, Count, Flattened, Seconds;
    assert r in g && Copied(g, r) == [] ==> CountAll(g, Copied(g, r), d - 1) == 0;
    hide CountAll;
  }

  lemma GoodBelow(g: Graph, r: Ref, d: int, reject: bool)
    requires Good(g, r, d, reject)
    ensures d >= 0 && forall c :: c in Children(g, r) ==> Good(g, c, d - 1, reject)
    ensures Count(g, r, d) == 1 + CountAll(g, Children(g, r), d - 1)
  {
    hide Children, CountAll;
  }

  function Firsts(entries: seq<(Ref, Ref)>): seq<Ref> {
    seq(|entries|, i requires 0 <= i < |entries| => entries[i].0)
  }

  function Seconds(entries: seq<(Ref, Ref)>): seq<Ref> {
    seq(|entries|, i requires 0 <= i < |entries| => entries[i].1)
  }

  // The elements of a list, or the values of a dictionary, in order.
  method ExpandAll(g: Graph, rs: seq<Ref>, resolve: string -> string, missing: string -> bool, ghost d: int, ghost reject: bool)
    returns (values: Option<seq<Value>>)
    requires d >= -1 && forall r :: r in rs ==> Good(g, r, d, reject)
    ensures values.Some? ==> |values.value| == |rs| && SizeAll(values.value) <= CountAll(g, rs, d)
    ensures values.Some? ==> forall i :: 0 <= i < |rs| ==> IsExpansion(g, rs[i], resolve, values.value[i])
    ensures values.None? <==> exists r :: r in rs && Lacks(g, r, missing, d)
    decreases d, |rs| + 1
  {
    hide Good, Count;
    var built: seq<Value> := [];
    for n := 0 to |rs|
      invariant |built| == n && SizeAll(built) <= CountAll(g, rs[..n], d)
      invariant forall i :: 0 <= i < n ==> IsExpansion(g, rs[i], resolve, built[i]) && !Lacks(g, rs[i], missing, d)
    {
      assert rs[..n + 1][..n] == rs[..n];
      var v := ExpandEnv(g, rs[n], resolve, missing, d, reject);
      if v.Missing? {
        return None;
      }
      SizeAppend(built, v.value);
      built := built + [v.value];
    }
    assert rs[..|rs|] == rs;
    values := Some(built);
  }

  lemma {:induction false} CountOfValues(g: Graph, entries: seq<(Ref, Ref)>, d: int)
    ensures CountAll(g, Seconds(entries), d) <= CountAll(g, Flattened(entries), d)
    decreases |entries|
  {
    if entries != [] {
      var n := |entries| - 1;
      CountOfValues(g, entries[..n], d);
      hide Count;
      var values := Seconds(entries);
      assert values[..n] == Seconds(entries[..n]) && values[n] == entries[n].1;
      var before := Flattened(entries[..n]);
      var after := before + [entries[n].0, entries[n].1];
      assert Flattened(entries) == after;
      assert after[..|after| - 1] == before + [entries[n].0];
      assert (before + [entries[n].0])[..|before|] == before;
    }
  }

  /** from_dict: check the graph, then expand it; the expansion of an accepted graph always returns. */
  method CheckAndExpand(g: Graph, root: Ref, resolve: string -> string, missing: string -> bool)
    returns (v: Verdict, result: Result)
    ensures v.Accepted? && result.Ok? ==> IsExpansion(g, root, resolve, result.value) && Size(result.value) <= MAX_NODES
    ensures v.Accepted? ==> (result.Missing? <==> Lacks(g, root, missing, MAX_DEPTH))
    ensures v.Accepted? <==> Within(g, root, MAX_DEPTH, false) && Count(g, root, MAX_DEPTH) <= MAX_NODES
  {
    hide Good, Count, Within, Size;
    v := ValidateConfigGraph(g, root, false);
    result := Missing;
    if v.Accepted? {
      result := ExpandEnv(g, root, resolve, missing, MAX_DEPTH, false);
    }
  }
}
