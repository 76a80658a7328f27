/** Merging a list of findings by id, in place (merge in shadowscan/merge.py). */
module MergingAll {
  import opened Semilattice
  import opened Merging

  datatype Snapshot = Snapshot(id: string, view: View)

  function Snapshots(fs: seq<Finding>): (r: seq<Snapshot>)
    reads fs
    ensures |r| == |fs| && forall i :: 0 <= i < |fs| ==> r[i] == Snapshot(fs[i].id, fs[i].ViewOf())
  {
    seq(|fs|, i requires 0 <= i < |fs| reads fs => Snapshot(fs[i].id, fs[i].ViewOf()))
  }

  function WithId(ss: seq<Snapshot>, id: string): (r: seq<View>)
    ensures forall v :: v in r <==> Snapshot(id, v) in ss
  {
    if ss == [] then []
    else
      var n := |ss| - 1;
      assert ss == ss[..n] + [ss[n]];
      WithId(ss[..n], id) + (if ss[n].id == id then [ss[n].view] else [])
  }

  // What all observations of one id join to.
  function Merged(ss: seq<Snapshot>, id: string): Option<View> {
    if WithId(ss, id) == [] then None else Some(Fold(Join, WithId(ss, id)))
  }

  lemma {:induction false} WithIdSplits(a: seq<Snapshot>, b: seq<Snapshot>, id: string)
    ensures WithId(a + b, id) == WithId(a, id) + WithId(b, id)
    decreases |b|
  {
    if b == [] {
      assert a + b == a;
    } else {
      var n := |b| - 1;
      assert (a + b)[..|a + b| - 1] == a + b[..n];
      WithIdSplits(a, b[..n], id);
    }
  }

  /** Every order of the findings, and every repetition, merges to the same view per id. */
  lemma MergeIgnoresOrder(a: seq<Snapshot>, b: seq<Snapshot>, id: string)
    requires forall s :: s in a <==> s in b
    ensures Merged(a, id) == Merged(b, id)
  {
    var x, y := WithId(a, id), WithId(b, id);
    if x != [] { assert x[0] in x; assert x[0] in y; }
    if y != [] { assert y[0] in y; assert y[0] in x; }
    if x != [] {
      JoinIsSemilattice();
      SetDetermined(Join, x, y);
    }
  }

  /** Merging some findings first and the rest later merges to what merging all at once does. */
  lemma MergeIgnoresGrouping(a: seq<Snapshot>, partial: seq<Snapshot>, b: seq<Snapshot>, id: string)
    requires WithId(partial, id) == if Merged(a, id).None? then [] else [Merged(a, id).value]
    ensures Merged(partial + b, id) == Merged(a + b, id)
  {
    WithIdSplits(a, b, id);
    WithIdSplits(partial, b, id);
    JoinIsSemilattice();
    if Merged(a, id).Some? {
      Grouping(Join, WithId(a, id), WithId(b, id));
    }
  }

  ghost predicate Distinct(fs: seq<Finding>) {
    forall i, j :: 0 <= i < j < |fs| ==> fs[i] != fs[j]
  }

  function Views(byId: map<string, Finding>): (r: map<string, View>)
    reads byId.Values
    ensures r.Keys == byId.Keys && forall id :: id in byId ==> r[id] == byId[id].ViewOf()
  {
    map id | id in byId :: byId[id].ViewOf()
  }

  // The views held after the first n findings are the joins of what was seen.
  ghost predicate Holds(views: map<string, View>, ss: seq<Snapshot>, n: nat)
    requires n <= |ss|
  {
    forall id :: (if id in views then Some(views[id]) else None) == Merged(ss[..n], id)
  }

  ghost predicate First(fs: seq<Finding>, k: nat)
    requires k < |fs|
  {
    forall j :: 0 <= j < k ==> fs[j].id != fs[k].id
  }

  // The dictionary holds, for each id among the first n findings, the first finding of that id.
  ghost predicate Keyed(byId: map<string, Finding>, fs: seq<Finding>, n: nat)
    requires n <= |fs|
  {
    && (forall i :: 0 <= i < n ==> fs[i].id in byId)
    && (forall id :: id in byId ==> exists k :: 0 <= k < n && First(fs, k) && fs[k].id == id && byId[id] == fs[k])
  }

  /** merge: the first finding of each id absorbs the later ones and ends up with the join of them all; the others stay as
      they were. */
  method Merge(fs: seq<Finding>) returns (byId: map<string, Finding>)
    requires Distinct(fs)
    modifies fs
    ensures Keyed(byId, fs, |fs|) && Holds(Views(byId), old(Snapshots(fs)), |fs|)
    ensures forall i :: 0 <= i < |fs| && !First(fs, i) ==> unchanged(fs[i])
  {
    hide *;
    byId := map[];
    ghost var ss := Snapshots(fs);
    ghost var views: map<string, View> := map[];
    NothingMerged(ss);
    NothingKeyed(fs);
    for n := 0 to |fs|
      invariant Keyed(byId, fs, n) && Holds(views, ss, n) && byId.Keys == views.Keys
      invariant forall id :: id in byId ==> byId[id].ViewOf() == views[id]
      invariant forall i :: n <= i < |fs| ==> fs[i].ViewOf() == ss[i].view && fs[i].id == ss[i].id
      invariant forall i :: 0 <= i < |fs| && (i >= n || !First(fs, i)) ==> unchanged(fs[i])
    {
      var f := fs[n];
      var id := f.id;
      HoldsOneMore(views, ss, n);
      KeyedOneMore(byId, fs, n);
      if id in byId {
        var cur := byId[id];
        forall i | 0 <= i < |fs| && (i >= n || !First(fs, i)) ensures fs[i] != cur { NotCurrent(byId, fs, n, id, i); }
        forall other | other in byId && other != id ensures byId[other] != cur { }
        cur.Absorb(f);
        views := views[id := Join(views[id], ss[n].view)];
      } else {
        byId := byId[id := f];
        views := views[id := ss[n].view];
      }
    }
    assert Views(byId) == views;
  }

  lemma NothingKeyed(fs: seq<Finding>)
    ensures Keyed(map[], fs, 0)
  {
  }

  lemma KeyedOneMore(byId: map<string, Finding>, fs: seq<Finding>, n: nat)
    requires n < |fs| && Keyed(byId, fs, n)
    ensures forall id :: id in byId ==> byId[id].id == id && byId[id] in fs
    ensures Keyed(if fs[n].id in byId then byId else byId[fs[n].id := fs[n]], fs, n + 1)
  {
    if fs[n].id !in byId { assert First(fs, n); }
  }

  lemma NothingMerged(ss: seq<Snapshot>)
    ensures Holds(map[], ss, 0)
  {
  }

  lemma NotCurrent(byId: map<string, Finding>, fs: seq<Finding>, n: nat, id: string, i: nat)
    requires Distinct(fs) && n <= |fs| && i < |fs| && Keyed(byId, fs, n) && id in byId && (i >= n || !First(fs, i))
    ensures fs[i] != byId[id]
  {
    var k :| 0 <= k < n && First(fs, k) && fs[k].id == id && byId[id] == fs[k];
  }

  lemma HoldsOneMore(views: map<string, View>, ss: seq<Snapshot>, n: nat)
    requires n < |ss| && Holds(views, ss, n)
    ensures var id := ss[n].id;
            Holds(views[id := if id in views then Join(views[id], ss[n].view) else ss[n].view], ss, n + 1)
  {
    MergedOneMore(ss, n);
    hide Merged, Join;
  }

  lemma MergedOneMore(ss: seq<Snapshot>, n: nat)
    requires n < |ss|
    ensures forall id :: Merged(ss[..n + 1], id) ==
                         if id != ss[n].id then Merged(ss[..n], id)
                         else if Merged(ss[..n], id).None? then Some(ss[n].view)
                         else Some(Join(Merged(ss[..n], id).value, ss[n].view))
  {
    hide Join;
    assert ss[..n + 1][..n] == ss[..n];
    forall id ensures Merged(ss[..n + 1], id) ==
                      if id != ss[n].id then Merged(ss[..n], id)
                      else if Merged(ss[..n], id).None? then Some(ss[n].view)
                      else Some(Join(Merged(ss[..n], id).value, ss[n].view))
    {
      var rest := WithId(ss[..n], id);
      if id == ss[n].id {
        assert WithId(ss[..n + 1], id) == rest + [ss[n].view];
        assert rest == [] ==> rest + [ss[n].view] == [ss[n].view];
        if rest != [] { FoldAppend(Join, rest, ss[n].view); }
      } else {
        assert WithId(ss[..n + 1], id) == rest + [] == rest;
      }
    }
  }
}
