/** The record-export and collection-scope ledgers that connector workers write and the engine reads
    once supervision has ended (shadowscan/engine.py). Every job is identified by its configuration ordinal. */
module Ledgers {
  type Ordinal = nat

  datatype ExportEntry = ExportEntry(ordinal: Ordinal, part: nat, filename: string, complete: bool, exported: bool)

  datatype ScopeSlot<T> = One(record: T) | Ambiguous

  function FailedEntry(ordinal: Ordinal): ExportEntry {
    ExportEntry(ordinal, 0, "", false, false)
  }

  // ---------------------------------------------------------------- specification

  function Kept(entries: seq<ExportEntry>, timedOut: set<Ordinal>): (r: seq<ExportEntry>)
    ensures forall e :: e in r <==> e in entries && e.ordinal !in timedOut
  {
    if entries == [] then []
    else
      var rest := Kept(entries[..|entries| - 1], timedOut);
      var e := entries[|entries| - 1];
      if e.ordinal in timedOut then rest else rest + [e]
  }

  function Failures(jobs: seq<Ordinal>, timedOut: set<Ordinal>): (r: seq<ExportEntry>)
    ensures forall e :: e in r <==> e.ordinal in jobs && e.ordinal in timedOut && e == FailedEntry(e.ordinal)
  {
    if jobs == [] then []
    else
      var rest := Failures(jobs[..|jobs| - 1], timedOut);
      var j := jobs[|jobs| - 1];
      if j in timedOut then rest + [FailedEntry(j)] else rest
  }

  function FinalEntries(entries: seq<ExportEntry>, jobs: seq<Ordinal>, timedOut: set<Ordinal>): seq<ExportEntry> {
    Kept(entries, timedOut) + Failures(jobs, timedOut)
  }

  function RecordScope<T>(records: map<Ordinal, ScopeSlot<T>>, j: Ordinal, record: T): map<Ordinal, ScopeSlot<T>> {
    records[j := if j in records then Ambiguous else One(record)]
  }

  function LiveRecords<T>(records: map<Ordinal, ScopeSlot<T>>, timedOut: set<Ordinal>): map<Ordinal, T> {
    map j | j in records && records[j].One? && j !in timedOut :: records[j].record
  }

  // The entries of one job, in the order they were reported.
  function Of(entries: seq<ExportEntry>, j: Ordinal): seq<ExportEntry> {
    if entries == [] then []
    else
      var rest := Of(entries[..|entries| - 1], j);
      var e := entries[|entries| - 1];
      if e.ordinal == j then rest + [e] else rest
  }

  // ---------------------------------------------------------------- what the final manifest says

  lemma {:induction false} OfConcat(a: seq<ExportEntry>, b: seq<ExportEntry>, j: Ordinal)
    ensures Of(a + b, j) == Of(a, j) + Of(b, j)
    decreases |b|
  {
    if b == [] {
      assert a + b == a;
    } else {
      var n := |b| - 1;
      assert (a + b)[..|a + b| - 1] == a + b[..n];
      OfConcat(a, b[..n], j);
    }
  }

  lemma {:induction false} OfKept(entries: seq<ExportEntry>, timedOut: set<Ordinal>, j: Ordinal)
    ensures Of(Kept(entries, timedOut), j) == if j in timedOut then [] else Of(entries, j)
    decreases |entries|
  {
    if entries != [] {
      var n := |entries| - 1;
      OfKept(entries[..n], timedOut, j);
      OfConcat(Kept(entries[..n], timedOut), [entries[n]], j);
      assert Of([entries[n]], j) == if entries[n].ordinal == j then [entries[n]] else [];
    }
  }

  ghost predicate Distinct(jobs: seq<Ordinal>) {
    forall i, k :: 0 <= i < k < |jobs| ==> jobs[i] != jobs[k]
  }

  lemma {:induction false} OfFailures(jobs: seq<Ordinal>, timedOut: set<Ordinal>, j: Ordinal)
    requires Distinct(jobs)
    ensures Of(Failures(jobs, timedOut), j) == if j in jobs && j in timedOut then [FailedEntry(j)] else []
    decreases |jobs|
  {
    if jobs != [] {
      var n := |jobs| - 1;
      OfFailures(jobs[..n], timedOut, j);
      assert j in jobs <==> j in jobs[..n] || j == jobs[n];
      OfConcat(Failures(jobs[..n], timedOut), [FailedEntry(jobs[n])], j);
      assert Of([FailedEntry(jobs[n])], j) == if jobs[n] == j then [FailedEntry(jobs[n])] else [];
    }
  }

  /** Nothing a timed-out worker reported survives, however late it reported it, and one failed entry stands in its
      place; every other job keeps exactly what it reported, in order. */
  lemma FinalEntriesPerJob(entries: seq<ExportEntry>, jobs: seq<Ordinal>, timedOut: set<Ordinal>, j: Ordinal)
    requires Distinct(jobs) && j in jobs
    ensures Of(FinalEntries(entries, jobs, timedOut), j) ==
            if j in timedOut then [FailedEntry(j)] else Of(entries, j)
  {
    OfKept(entries, timedOut, j);
    OfFailures(jobs, timedOut, j);
    OfConcat(Kept(entries, timedOut), Failures(jobs, timedOut), j);
  }

  // ---------------------------------------------------------------- the ledgers

  class ExportLedger {
    var reported: seq<ExportEntry>

    constructor ()
      ensures reported == []
    {
      reported := [];
    }

    method Record(cancelled: bool, entry: ExportEntry)
      modifies this
      ensures reported == if cancelled then old(reported) else old(reported) + [entry]
    {
      if !cancelled {
        reported := reported + [entry];
      }
    }

    method Entries(jobs: seq<Ordinal>, timedOut: set<Ordinal>) returns (entries: seq<ExportEntry>)
      ensures entries == FinalEntries(reported, jobs, timedOut)
    {
      entries := [];
      for i := 0 to |reported|
        invariant entries == Kept(reported[..i], timedOut)
      {
        assert reported[..i + 1][..i] == reported[..i];
        if reported[i].ordinal !in timedOut {
          entries := entries + [reported[i]];
        }
      }
      assert reported[..|reported|] == reported;
      ghost var kept := entries;
      for i := 0 to |jobs|
        invariant entries == kept + Failures(jobs[..i], timedOut)
      {
        assert jobs[..i + 1][..i] == jobs[..i];
        if jobs[i] in timedOut {
          entries := entries + [FailedEntry(jobs[i])];
        }
      }
      assert jobs[..|jobs|] == jobs;
    }
  }

  class ScopeLedger<T(==)> {
    var slots: map<Ordinal, ScopeSlot<T>>

    constructor ()
      ensures slots == map[]
    {
      slots := map[];
    }

    /** One record per configured entry: a second report attests nothing, and never attests again. */
    method Record(cancelled: bool, j: Ordinal, record: T)
      modifies this
      ensures slots == if cancelled then old(slots) else RecordScope(old(slots), j, record)
      ensures !cancelled && j in old(slots) ==> slots[j] == Ambiguous
      ensures forall k :: k != j ==> (k in slots <==> k in old(slots)) && (k in slots ==> slots[k] == old(slots)[k])
    {
      if cancelled {
        return;
      }
      if j in slots {
        slots := slots[j := Ambiguous];
      } else {
        slots := slots[j := One(record)];
      }
    }

    method Records(timedOut: set<Ordinal>) returns (live: map<Ordinal, T>)
      ensures live == LiveRecords(slots, timedOut)
      ensures live.Keys !! timedOut
    {
      live := map j | j in slots && slots[j].One? && j !in timedOut :: slots[j].record;
    }
  }
}
