/** What correlation writes on each finding, and what a report that keeps only some of the findings may rely on. */
module CorrelationReport {
  import opened Ordering
  import opened CorrelationKeys
  import opened CorrelationLinks
  import opened Correlation

  datatype Detail = Detail(id: string, matches: seq<Match>)

  // The three metadata fields of a finding; an absent field is an empty list.
  datatype LinkRecord = LinkRecord(related: seq<string>, details: seq<Detail>, candidates: seq<Detail>)

  function Detailed(l: Links, a: string, ids: seq<string>): seq<Detail> {
    seq(|ids|, i requires 0 <= i < |ids| => Detail(ids[i], MatchesOf(l, a, ids[i])))
  }

  function RecordOf(exact: Links, fuzzy: Links, a: string): LinkRecord {
    var peers := Sorted(PeersOf(exact, a).Keys);
    LinkRecord(peers, Detailed(exact, a, peers),
               Detailed(fuzzy, a, Sorted(PeersOf(fuzzy, a).Keys - PeersOf(exact, a).Keys)))
  }

  function KeptIds(ids: seq<string>, retained: set<string>): (r: seq<string>)
    ensures forall x :: x in r <==> x in ids && x in retained
    ensures |r| <= |ids|
  {
    if ids == [] then []
    else
      var n := |ids| - 1;
      assert ids == ids[..n] + [ids[n]];
      KeptIds(ids[..n], retained) + (if ids[n] in retained then [ids[n]] else [])
  }

  function KeptDetails(items: seq<Detail>, retained: set<string>): (r: seq<Detail>)
    ensures forall x :: x in r <==> x in items && x.id in retained
    ensures |r| <= |items|
  {
    if items == [] then []
    else
      var n := |items| - 1;
      assert items == items[..n] + [items[n]];
      KeptDetails(items[..n], retained) + (if items[n].id in retained then [items[n]] else [])
  }

  function Pruned(r: LinkRecord, retained: set<string>): LinkRecord {
    LinkRecord(KeptIds(r.related, retained), KeptDetails(r.details, retained), KeptDetails(r.candidates, retained))
  }

  class Finding {
    const facts: Facts
    var related: seq<string>
    var details: seq<Detail>
    var candidates: seq<Detail>

    constructor (facts: Facts)
      ensures this.facts == facts
    {
      this.facts := facts;
      related, details, candidates := [], [], [];
    }

    function Record(): LinkRecord
      reads this
    {
      LinkRecord(related, details, candidates)
    }
  }

  ghost predicate Distinct(fs: seq<Finding>) {
    forall i, j :: 0 <= i < j < |fs| ==> fs[i] != fs[j]
  }

  function FactsOf(fs: seq<Finding>): (r: seq<Facts>)
    ensures |r| == |fs| && forall i :: 0 <= i < |fs| ==> r[i] == fs[i].facts
  {
    if fs == [] then [] else FactsOf(fs[..|fs| - 1]) + [fs[|fs| - 1].facts]
  }

  function Ids(fs: seq<Finding>): (r: set<string>)
    ensures forall x :: x in r <==> exists f :: f in fs && f.facts.id == x
  {
    set f | f in fs :: f.facts.id
  }

  /** correlate: any earlier links are replaced. */
  method Correlate(fs: seq<Finding>)
    requires Distinct(fs)
    modifies fs
    ensures forall i :: 0 <= i < |fs| ==>
                          fs[i].Record() == RecordOf(ExactTable(FactsOf(fs)), FuzzyTable(FactsOf(fs)), fs[i].facts.id)
  {
    var all := FactsOf(fs);
    var exact, fuzzy := Link(all);
    hide ExactTable, FuzzyTable, PeersOf, Detailed, FactsOf;
    for n := 0 to |fs|
      invariant exact.links == ExactTable(all) && fuzzy.links == FuzzyTable(all)
      invariant forall i :: 0 <= i < n ==> fs[i].Record() == RecordOf(exact.links, fuzzy.links, fs[i].facts.id)
    {
      var f := fs[n];
      var id := f.facts.id;
      var peers := PeersOf(exact.links, id);
      f.related := Sorted(peers.Keys);
      f.details := Detailed(exact.links, id, f.related);
      f.candidates := Detailed(fuzzy.links, id, Sorted(PeersOf(fuzzy.links, id).Keys - peers.Keys));
    }
  }

  /** _prune_related: drop every link to a finding that is not among those kept. */
  method PruneRelated(fs: seq<Finding>)
    requires Distinct(fs)
    modifies fs
    ensures forall i :: 0 <= i < |fs| ==> fs[i].Record() == Pruned(old(fs[i].Record()), Ids(fs))
  {
    var retained := Ids(fs);
    hide KeptIds, KeptDetails, Ids;
    for n := 0 to |fs|
      invariant forall i :: 0 <= i < n ==> fs[i].Record() == Pruned(old(fs[i].Record()), retained)
      invariant forall i :: n <= i < |fs| ==> fs[i].Record() == old(fs[i].Record())
    {
      var f := fs[n];
      f.related := KeptIds(f.related, retained);
      f.details := KeptDetails(f.details, retained);
      f.candidates := KeptDetails(f.candidates, retained);
    }
  }

  // ---------------------------------------------------------------- the report

  // What the report that keeps `retained` says about finding a.
  function Reported(fs: seq<Facts>, a: string, retained: set<string>): LinkRecord {
    Pruned(RecordOf(ExactTable(fs), FuzzyTable(fs), a), retained)
  }

  function MirrorAll(ms: seq<Match>): seq<Match> {
    seq(|ms|, i requires 0 <= i < |ms| => Mirror(ms[i]))
  }

  lemma DetailedIs(l: Links, a: string, ids: seq<string>)
    ensures |Detailed(l, a, ids)| == |ids|
    ensures forall d :: d in Detailed(l, a, ids) <==> d.id in ids && d.matches == MatchesOf(l, a, d.id)
  {
    var ds := Detailed(l, a, ids);
    forall d: Detail | d.id in ids && d.matches == MatchesOf(l, a, d.id) ensures d in ds {
      var i :| 0 <= i < |ids| && ids[i] == d.id;
      assert ds[i] == d;
    }
  }

  lemma ReportedIs(fs: seq<Facts>, a: string, retained: set<string>)
    ensures var r := Reported(fs, a, retained); var exact, fuzzy := ExactTable(fs), FuzzyTable(fs);
            && (forall b :: b in r.related <==> b in PeersOf(exact, a) && b in retained)
            && (forall d :: d in r.details <==> d.id in PeersOf(exact, a) && d.id in retained && d.matches == MatchesOf(exact, a, d.id))
            && (forall d :: d in r.candidates <==> d.id in PeersOf(fuzzy, a) && d.id !in PeersOf(exact, a) && d.id in retained
                                                   && d.matches == MatchesOf(fuzzy, a, d.id))
            && |r.related| <= |PeersOf(exact, a)| && |r.candidates| <= |PeersOf(fuzzy, a)|
  {
    var exact, fuzzy := ExactTable(fs), FuzzyTable(fs);
    hide ExactTable, FuzzyTable, PeersOf, MatchesOf, Detailed, Sorted, KeptIds, KeptDetails;
    var peers, others := PeersOf(exact, a).Keys, PeersOf(fuzzy, a).Keys - PeersOf(exact, a).Keys;
    DetailedIs(exact, a, Sorted(peers));
    DetailedIs(fuzzy, a, Sorted(others));
    SubsetSize(others, PeersOf(fuzzy, a).Keys);
    assert |PeersOf(exact, a)| == |peers| && |PeersOf(fuzzy, a)| == |PeersOf(fuzzy, a).Keys|;
  }

  /** Whatever subset of the findings a report keeps, the links of each kept finding point only at kept findings and never
      at itself, exact and candidate links are disjoint, and there are at most MAX_PEERS of each. */
  lemma LinksAreBounded(fs: seq<Facts>, a: string, retained: set<string>)
    ensures var r := Reported(fs, a, retained);
            && |r.related| <= MAX_PEERS && |r.candidates| <= MAX_PEERS
            && (forall b :: b in r.related ==> b in retained && b != a)
            && (forall d :: d in r.candidates ==> d.id in retained && d.id != a && d.id !in r.related)
            && (forall b :: b in r.related <==> exists d :: d in r.details && d.id == b)
  {
    TablesAreGood(fs);
    ReportedIs(fs, a, retained);
    hide Reported, PeersOf, MatchesOf, LinkOk, ExactTable, FuzzyTable;
    var r := Reported(fs, a, retained);
    forall b | b in r.related ensures exists d :: d in r.details && d.id == b {
      assert Detail(b, MatchesOf(ExactTable(fs), a, b)) in r.details;
    }
  }

  /** Links between two kept findings are mutual, and each side lists the other's matches with source and target fields
      swapped. */
  lemma LinksAreSymmetric(fs: seq<Facts>, a: string, b: string, retained: set<string>)
    requires a in retained && b in retained
    ensures var x, y := Reported(fs, a, retained), Reported(fs, b, retained);
            && (b in x.related <==> a in y.related)
            && (forall ms :: Detail(b, ms) in x.details ==> Detail(a, MirrorAll(ms)) in y.details)
            && (forall ms :: Detail(b, ms) in x.candidates ==> Detail(a, MirrorAll(ms)) in y.candidates)
  {
    TablesAreGood(fs);
    ReportedIs(fs, a, retained);
    ReportedIs(fs, b, retained);
    assert LinkOk(ExactTable(fs), a, b) && LinkOk(FuzzyTable(fs), a, b);
    hide Reported, PeersOf, MatchesOf, Good, ExactTable, FuzzyTable;
    assert MirrorAll(MatchesOf(ExactTable(fs), a, b)) == MatchesOf(ExactTable(fs), b, a);
    assert MirrorAll(MatchesOf(FuzzyTable(fs), a, b)) == MatchesOf(FuzzyTable(fs), b, a);
  }

  /** The report is the same for every order of the findings. */
  lemma ReportIgnoresOrder(x: seq<Facts>, y: seq<Facts>, a: string, retained: set<string>)
    requires UniqueIds(x) && UniqueIds(y) && forall f :: f in x <==> f in y
    ensures Reported(x, a, retained) == Reported(y, a, retained)
  {
    TablesIgnoreOrder(x, y);
    hide ExactTable, FuzzyTable, RecordOf, Pruned, UniqueIds;
  }
}
