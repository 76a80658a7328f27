/** Oldest-first eviction of the incremental cache under a time-to-live and two quotas
    (shadowscan/incremental.py, _maintain_cache and _remove_entry). */
module Eviction {
  type Slot = nat      // the digest that names an entry, in its sort order

  datatype Entry = Entry(slot: Slot, size: nat, mtime: int)

  const MAX_ENTRIES := 256
  const MAX_TOTAL_BYTES := 512 * 1024 * 1024
  const TTL_NANOSECONDS := 30 * 24 * 60 * 60 * 1_000_000_000

  predicate Within(count: int, bytes: int) {
    count <= MAX_ENTRIES && bytes <= MAX_TOTAL_BYTES
  }

  function Bytes(entries: seq<Entry>): nat {
    if entries == [] then 0 else entries[0].size + Bytes(entries[1..])
  }

  predicate Fits(entries: seq<Entry>) {
    Within(|entries|, Bytes(entries))
  }

  // ---------------------------------------------------------------- the order entries are visited in

  predicate Before(a: Entry, b: Entry) {
    a.mtime < b.mtime || (a.mtime == b.mtime && a.slot <= b.slot)
  }

  ghost predicate Sorted(entries: seq<Entry>) {
    forall i, k :: 0 <= i < k < |entries| ==> Before(entries[i], entries[k])
  }

  function Insert(e: Entry, entries: seq<Entry>): seq<Entry> {
    if entries == [] || Before(e, entries[0]) then [e] + entries
    else [entries[0]] + Insert(e, entries[1..])
  }

  function ByAge(entries: seq<Entry>): seq<Entry> {
    if entries == [] then [] else Insert(entries[0], ByAge(entries[1..]))
  }

  lemma {:induction false} InsertKeepsElements(e: Entry, entries: seq<Entry>)
    ensures multiset(Insert(e, entries)) == multiset(entries) + multiset{e}
  {
    if entries != [] && !Before(e, entries[0]) {
      InsertKeepsElements(e, entries[1..]);
      assert entries == [entries[0]] + entries[1..];
    }
  }

  lemma {:induction false} InsertKeepsOrder(e: Entry, entries: seq<Entry>)
    requires Sorted(entries)
    ensures Sorted(Insert(e, entries))
  {
    if entries != [] && !Before(e, entries[0]) {
      InsertKeepsOrder(e, entries[1..]);
      InsertKeepsElements(e, entries[1..]);
      var rest := Insert(e, entries[1..]);
      forall k | 0 <= k < |rest| ensures Before(entries[0], rest[k]) {
        assert rest[k] in multiset(rest);
        assert rest[k] == e || rest[k] in entries[1..];
      }
    }
  }

  lemma {:induction false} ByAgeSorts(entries: seq<Entry>)
    ensures Sorted(ByAge(entries)) && multiset(ByAge(entries)) == multiset(entries)
  {
    if entries != [] {
      ByAgeSorts(entries[1..]);
      InsertKeepsOrder(entries[0], ByAge(entries[1..]));
      InsertKeepsElements(entries[0], ByAge(entries[1..]));
      assert entries == [entries[0]] + entries[1..];
    }
  }

  /** Oldest first; entries of one age in the order of their slots. */
  lemma ByAgeIsOldestFirst(entries: seq<Entry>, i: nat, k: nat)
    requires DistinctSlots(entries) && i < k < |ByAge(entries)|
    ensures var a, b := ByAge(entries)[i], ByAge(entries)[k]; a.mtime < b.mtime || (a.mtime == b.mtime && a.slot < b.slot)
  {
    ByAgeSorts(entries);
    SameDistinct(entries, ByAge(entries));
  }

  // The sizes of all entries, added up.
  ghost function SizeOf(entries: multiset<Entry>): nat
    decreases |entries|
  {
    if entries == multiset{} then 0
    else
      var e :| e in entries;
      e.size + SizeOf(entries - multiset{e})
  }

  lemma {:induction false} SizeTakeOut(entries: multiset<Entry>, e: Entry)
    requires e in entries
    ensures SizeOf(entries) == e.size + SizeOf(entries - multiset{e})
    decreases |entries|
  {
    var f :| f in entries && SizeOf(entries) == f.size + SizeOf(entries - multiset{f});
    if f != e {
      SizeTakeOut(entries - multiset{f}, e);
      SizeTakeOut(entries - multiset{e}, f);
      assert entries - multiset{f} - multiset{e} == entries - multiset{e} - multiset{f};
    }
  }

  lemma {:induction false} BytesAreSizes(entries: seq<Entry>)
    ensures Bytes(entries) == SizeOf(multiset(entries))
  {
    if entries != [] {
      assert entries == [entries[0]] + entries[1..];
      BytesAreSizes(entries[1..]);
      SizeTakeOut(multiset(entries), entries[0]);
      assert multiset(entries) - multiset{entries[0]} == multiset(entries[1..]);
    }
  }

  /** The quotas: 256 entries and 512 MiB. */
  lemma FitsMeans(entries: seq<Entry>)
    ensures Fits(entries) <==> |entries| <= 256 && SizeOf(multiset(entries)) <= 536_870_912
  {
    BytesAreSizes(entries);
    hide SizeOf;
  }

  // ---------------------------------------------------------------- what eviction leaves

  /** Survivors of the entries still to be visited; count and bytes are the totals of everything still present. */
  function Survivors(entries: seq<Entry>, count: int, bytes: int, cutoff: int, immovable: set<Slot>): seq<Entry> {
    if entries == [] then []
    else
      var e, rest := entries[0], entries[1..];
      if (e.mtime < cutoff || !Within(count, bytes)) && e.slot !in immovable
      then Survivors(rest, count - 1, bytes - e.size, cutoff, immovable)
      else [e] + Survivors(rest, count, bytes, cutoff, immovable)
  }

  /** The entries from k on may all stay: none has expired and they meet both quotas. */
  ghost predicate MayStay(entries: seq<Entry>, k: nat, cutoff: int)
    requires k <= |entries|
  {
    Fits(entries[k..]) && forall i :: k <= i < |entries| ==> entries[i].mtime >= cutoff
  }

  /** With nothing immovable, eviction removes a prefix of the age order, and the shortest whose rest may stay. */
  lemma {:induction false} EvictsShortestPrefix(entries: seq<Entry>, cutoff: int) returns (k: nat)
    requires Sorted(entries)
    ensures k <= |entries| && Survivors(entries, |entries|, Bytes(entries), cutoff, {}) == entries[k..]
    ensures MayStay(entries, k, cutoff)
    ensures forall j :: 0 <= j < k ==> !MayStay(entries, j, cutoff)
  {
    assert entries[0..] == entries;
    if entries == [] {
      k := 0;
    } else if entries[0].mtime < cutoff || !Fits(entries) {
      var rest := entries[1..];
      var m := EvictsShortestPrefix(rest, cutoff);
      k := m + 1;
      RestMayStay(entries, cutoff, m);
      forall j | 0 <= j < k ensures !MayStay(entries, j, cutoff) {
        if j > 0 {
          RestMayStay(entries, cutoff, j - 1);
          assert !MayStay(rest, j - 1, cutoff);
        }
      }
      assert rest[m..] == entries[k..];
    } else {
      k := 0;
      assert forall e :: e in entries ==> e.mtime >= cutoff;
      AllSurvive(entries, |entries|, Bytes(entries), cutoff);
    }
  }

  lemma RestMayStay(entries: seq<Entry>, cutoff: int, m: nat)
    requires m < |entries|
    ensures MayStay(entries[1..], m, cutoff) <==> MayStay(entries, m + 1, cutoff)
  {
    assert entries[1..][m..] == entries[m + 1..];
    assert forall i :: m + 1 <= i < |entries| ==> entries[i] == entries[1..][i - 1];
    assert forall i :: m <= i < |entries[1..]| ==> entries[1..][i] == entries[i + 1];
  }

  lemma {:induction false} AllSurvive(entries: seq<Entry>, count: int, bytes: int, cutoff: int)
    requires Within(count, bytes) && forall e :: e in entries ==> e.mtime >= cutoff
    ensures Survivors(entries, count, bytes, cutoff, {}) == entries
  {
    if entries != [] {
      AllSurvive(entries[1..], count, bytes, cutoff);
    }
  }

  /** When a quota is still exceeded afterwards, nothing more could have been evicted. */
  lemma {:induction false} OnlyImmovableOverQuota(
    entries: seq<Entry>, count: int, bytes: int, cutoff: int, immovable: set<Slot>, others: int, otherBytes: int)
    requires count == others + |entries| && bytes == otherBytes + Bytes(entries)
    ensures var kept := Survivors(entries, count, bytes, cutoff, immovable);
            || Within(others + |kept|, otherBytes + Bytes(kept))
            || forall e :: e in kept ==> e.slot in immovable
  {
    if entries != [] {
      var e, rest := entries[0], entries[1..];
      if (e.mtime < cutoff || !Within(count, bytes)) && e.slot !in immovable {
        OnlyImmovableOverQuota(rest, count - 1, bytes - e.size, cutoff, immovable, others, otherBytes);
      } else {
        OnlyImmovableOverQuota(rest, count, bytes, cutoff, immovable, others + 1, otherBytes + e.size);
        var kept := Survivors(rest, count, bytes, cutoff, immovable);
        assert ([e] + kept)[1..] == kept;
        if e.slot !in immovable {
          SurvivorsAreFewer(rest, count, bytes, cutoff, immovable);
        }
      }
    }
  }

  lemma {:induction false} SurvivorsAreFewer(entries: seq<Entry>, count: int, bytes: int, cutoff: int, immovable: set<Slot>)
    ensures var kept := Survivors(entries, count, bytes, cutoff, immovable);
            |kept| <= |entries| && Bytes(kept) <= Bytes(entries) && forall e :: e in kept ==> e in entries
  {
    if entries != [] {
      var e, rest := entries[0], entries[1..];
      SurvivorsAreFewer(rest, count - 1, bytes - e.size, cutoff, immovable);
      SurvivorsAreFewer(rest, count, bytes, cutoff, immovable);
      var kept := Survivors(rest, count, bytes, cutoff, immovable);
      assert ([e] + kept)[1..] == kept;
    }
  }

  /** A saved entry, protected while room is made for it, survives its own save unless some other removal failed. */
  lemma ProtectedEntryFits(entries: seq<Entry>, saved: Entry, cutoff: int)
    requires saved in entries && saved.size <= MAX_TOTAL_BYTES && DistinctSlots(entries)
    ensures Fits(Survivors(entries, |entries|, Bytes(entries), cutoff, {saved.slot}))
  {
    var kept := Survivors(entries, |entries|, Bytes(entries), cutoff, {saved.slot});
    OnlyImmovableOverQuota(entries, |entries|, Bytes(entries), cutoff, {saved.slot}, 0, 0);
    SurvivorsStayDistinct(entries, |entries|, Bytes(entries), cutoff, {saved.slot});
    SurvivorsAreFewer(entries, |entries|, Bytes(entries), cutoff, {saved.slot});
    if forall e :: e in kept ==> e.slot in {saved.slot} {
      OnlySaved(kept, entries, saved);
    }
  }

  lemma OnlySaved(kept: seq<Entry>, entries: seq<Entry>, saved: Entry)
    requires DistinctSlots(kept) && DistinctSlots(entries) && saved in entries
    requires forall e :: e in kept ==> e in entries && e.slot == saved.slot
    ensures Bytes(kept) <= saved.size && |kept| <= 1
  {
    forall i | 0 <= i < |kept| ensures kept[i] == saved {
      assert kept[i] in kept;
    }
    assert |kept| > 0 ==> |kept[1..]| == |kept| - 1;
  }

  ghost predicate DistinctSlots(entries: seq<Entry>) {
    forall i, k :: 0 <= i < k < |entries| ==> entries[i].slot != entries[k].slot
  }

  lemma {:induction false} SurvivorsStayDistinct(entries: seq<Entry>, count: int, bytes: int, cutoff: int, immovable: set<Slot>)
    requires DistinctSlots(entries)
    ensures DistinctSlots(Survivors(entries, count, bytes, cutoff, immovable))
  {
    if entries != [] {
      var e, rest := entries[0], entries[1..];
      SurvivorsStayDistinct(rest, count - 1, bytes - e.size, cutoff, immovable);
      SurvivorsStayDistinct(rest, count, bytes, cutoff, immovable);
      SurvivorsAreFewer(rest, count, bytes, cutoff, immovable);
      assert forall x :: x in rest ==> x.slot != e.slot;
    }
  }

  // ---------------------------------------------------------------- the loop, over the directory

  ghost function Files(entries: seq<Entry>): set<Entry> {
    set e | e in entries
  }

  // The running totals are those of the files still present: `kept`, already visited, and `rest`, still to come.
  ghost predicate Tracks(kept: seq<Entry>, rest: seq<Entry>, present: set<Entry>, count: int, bytes: int) {
    DistinctSlots(kept + rest) && present == Files(kept + rest) && count == |kept + rest| && bytes == Bytes(kept + rest)
  }

  lemma TracksStart(entries: seq<Entry>, present: set<Entry>)
    requires DistinctSlots(entries) && present == Files(entries)
    ensures Tracks([], entries, present, |entries|, Bytes(entries))
  {
    assert [] + entries == entries;
  }

  lemma TracksNext(kept: seq<Entry>, e: Entry, rest: seq<Entry>, present: set<Entry>, count: int, bytes: int)
    requires Tracks(kept, [e] + rest, present, count, bytes)
    ensures Tracks(kept + [e], rest, present, count, bytes)
    ensures Tracks(kept, rest, present - {e}, count - 1, bytes - e.size)
  {
    VisitOne(kept, e, rest);
    assert kept + ([e] + rest) == kept + [e] + rest;
  }

  lemma TracksEnd(kept: seq<Entry>, present: set<Entry>, count: int, bytes: int)
    requires Tracks(kept, [], present, count, bytes)
    ensures DistinctSlots(kept) && present == Files(kept) && count == |kept| && bytes == Bytes(kept)
  {
    assert kept + [] == kept;
  }

  lemma SurvivorsNext(kept: seq<Entry>, e: Entry, rest: seq<Entry>, count: int, bytes: int, cutoff: int, immovable: set<Slot>)
    ensures kept + Survivors([e] + rest, count, bytes, cutoff, immovable) ==
            if (e.mtime < cutoff || !Within(count, bytes)) && e.slot !in immovable
            then kept + Survivors(rest, count - 1, bytes - e.size, cutoff, immovable)
            else kept + [e] + Survivors(rest, count, bytes, cutoff, immovable)
  {
    assert ([e] + rest)[1..] == rest;
  }

  lemma Peel(entries: seq<Entry>, i: nat)
    requires i < |entries|
    ensures entries[i..] == [entries[i]] + entries[i + 1..]
  {
  }

  lemma FitsIs(entries: seq<Entry>)
    ensures Fits(entries) <==> Within(|entries|, Bytes(entries))
  {
  }

  lemma SurvivorsEnd(count: int, bytes: int, cutoff: int, immovable: set<Slot>)
    ensures Survivors([], count, bytes, cutoff, immovable) == []
  {
  }

  // What a removal finds when it reaches a slot: its lock refused or failing, the file gone already, another file in its
  // place (a new inode, or no regular file), or the file that was listed, which then can or cannot be unlinked.
  datatype Meeting = LockRefused | Gone | Replaced | Same(unlinkable: bool)

  type Meetings = Slot -> Meeting

  predicate Stays(m: Meeting) {
    m.LockRefused? || m.Replaced? || (m.Same? && !m.unlinkable)
  }

  // The slots whose removal does not succeed.
  ghost function Stuck(entries: seq<Entry>, meetings: Meetings): set<Slot> {
    set e | e in entries && Stays(meetings(e.slot)) :: e.slot
  }

  class CacheDirectory {
    var present: set<Entry>      // the listed entries not known to be gone

    /** Remove one unchanged entry file under its slot lock. A file that is gone already counts as removed. */
    method RemoveEntry(e: Entry, meeting: Meeting) returns (removed: bool)
      modifies this
      ensures removed <==> !Stays(meeting)
      ensures present == if removed then old(present) - {e} else old(present)
    {
      match meeting {
        case LockRefused =>
          return false;
        case Gone =>
          present := present - {e};
          return true;
        case Replaced =>
          return false;
        case Same(unlinkable) =>
          if !unlinkable {
            return false;
          }
          present := present - {e};
          return true;
      }
    }

    /** True exactly when what remains meets both quotas, whatever could not be removed. */
    method Maintain(listing: seq<Entry>, protected: set<Slot>, meetings: Meetings, now: int) returns (ok: bool)
      requires DistinctSlots(listing) && present == Files(listing)
      modifies this
      ensures var entries := ByAge(listing);
              var kept := Survivors(entries, |entries|, Bytes(entries), now - 2_592_000_000_000_000, protected + Stuck(entries, meetings));
              && present == Files(kept) && DistinctSlots(kept)
              && (ok <==> |kept| <= 256 && SizeOf(multiset(kept)) <= 536_870_912)
    {
      hide *;
      var entries := ByAge(listing);
      ByAgeSorts(listing);
      SameDistinct(listing, entries);
      var totalBytes := Total(entries);
      TracksStart(entries, present);
      ghost var kept;
      ok, kept := EvictOldest(entries, totalBytes, protected, meetings, now - TTL_NANOSECONDS);
      TracksEnd(kept, present, |kept|, Bytes(kept));
      FitsMeans(kept);
      ThirtyDays();
    }

    method EvictOldest(entries: seq<Entry>, bytes: nat, protected: set<Slot>, meetings: Meetings, cutoff: int)
      returns (ok: bool, ghost kept: seq<Entry>)
      requires Tracks([], entries, present, |entries|, bytes)
      modifies this
      ensures kept == Survivors(entries, |entries|, bytes, cutoff, protected + Stuck(entries, meetings))
      ensures Tracks(kept, [], present, |kept|, Bytes(kept))
      ensures ok <==> Fits(kept)
    {
      hide *;
      var totalEntries: int, totalBytes: int := |entries|, bytes;
      ghost var immovable := protected + Stuck(entries, meetings);
      ghost var rest := entries;
      kept := [];
      for i := 0 to |entries|
        invariant rest == entries[i..] && Tracks(kept, rest, present, totalEntries, totalBytes)
        invariant kept + Survivors(rest, totalEntries, totalBytes, cutoff, immovable) ==
                  Survivors(entries, |entries|, bytes, cutoff, immovable)
      {
        var entry := entries[i];
        Peel(entries, i);
        rest := entries[i + 1..];
        TracksNext(kept, entry, rest, present, totalEntries, totalBytes);
        SurvivorsNext(kept, entry, rest, totalEntries, totalBytes, cutoff, immovable);
        var expired := entry.mtime < cutoff;
        var overLimit := !Within(totalEntries, totalBytes);
        var removed := false;
        StuckWhen(entries, meetings, entry);
        if (expired || overLimit) && entry.slot !in protected {
          removed := RemoveEntry(entry, meetings(entry.slot));
        }
        if removed {
          totalEntries := totalEntries - 1;
          totalBytes := totalBytes - entry.size;
        } else {
          kept := kept + [entry];
        }
      }
      TracksEnd(kept, present, totalEntries, totalBytes);
      SurvivorsEnd(totalEntries, totalBytes, cutoff, immovable);
      FitsIs(kept);
      ok := Within(totalEntries, totalBytes);
    }

    method Total(entries: seq<Entry>) returns (bytes: nat)
      ensures bytes == Bytes(entries)
    {
      bytes := 0;
      assert entries[0..] == entries;
      for i := 0 to |entries|
        invariant bytes + Bytes(entries[i..]) == Bytes(entries)
      {
        assert entries[i..][1..] == entries[i + 1..];
        bytes := bytes + entries[i].size;
      }
    }
  }

  lemma ThirtyDays()
    ensures TTL_NANOSECONDS == 2_592_000_000_000_000
  {
  }

  lemma StuckWhen(entries: seq<Entry>, meetings: Meetings, e: Entry)
    requires e in entries
    ensures e.slot in Stuck(entries, meetings) <==> Stays(meetings(e.slot))
  {
  }

  lemma SameDistinct(a: seq<Entry>, b: seq<Entry>)
    requires DistinctSlots(a) && multiset(a) == multiset(b)
    ensures DistinctSlots(b) && Files(a) == Files(b)
  {
    forall e ensures e in a <==> e in b {
      assert e in multiset(a) <==> e in multiset(b);
    }
    forall i, k | 0 <= i < k < |b| ensures b[i].slot != b[k].slot {
      if b[i].slot == b[k].slot {
        assert b[i] in a && b[k] in a;
        assert b[i] == b[k];
        Twice(b, i, k);
        Once(a, b[i]);
      }
    }
  }

  lemma Twice(b: seq<Entry>, i: nat, k: nat)
    requires i < k < |b| && b[i] == b[k]
    ensures multiset(b)[b[i]] >= 2
  {
    assert b == b[..k] + [b[k]] + b[k + 1..];
    assert b[i] in b[..k];
    assert multiset(b) == multiset(b[..k]) + multiset{b[k]} + multiset(b[k + 1..]);
  }

  lemma {:induction false} Once(a: seq<Entry>, e: Entry)
    requires DistinctSlots(a)
    ensures multiset(a)[e] <= 1
  {
    if a != [] {
      assert a == [a[0]] + a[1..];
      Once(a[1..], e);
      assert a[0] !in a[1..];
    }
  }

  lemma VisitOne(kept: seq<Entry>, e: Entry, rest: seq<Entry>)
    requires DistinctSlots(kept + ([e] + rest))
    ensures Bytes(kept + ([e] + rest)) == Bytes(kept + rest) + e.size
    ensures kept + ([e] + rest) == kept + [e] + rest && DistinctSlots(kept + rest)
    ensures Files(kept + rest) == Files(kept + ([e] + rest)) - {e}
  {
    BytesSplit(kept, e, rest);
    var all := kept + ([e] + rest);
    assert all[|kept|] == e;
    forall i, k | 0 <= i < k < |kept + rest| ensures (kept + rest)[i].slot != (kept + rest)[k].slot {
      var j, l := if i < |kept| then i else i + 1, if k < |kept| then k else k + 1;
      assert all[j] == (kept + rest)[i] && all[l] == (kept + rest)[k];
    }
    forall x ensures x in kept + rest <==> x in all && x != e {
      if x in all && x != e {
        assert x in kept || x in rest;
      }
      if x in kept + rest {
        var i :| 0 <= i < |kept + rest| && (kept + rest)[i] == x;
        var j := if i < |kept| then i else i + 1;
        assert all[j] == x;
      }
    }
  }

  lemma {:induction false} BytesSplit(a: seq<Entry>, e: Entry, b: seq<Entry>)
    ensures Bytes(a + ([e] + b)) == Bytes(a + b) + e.size
  {
    if a == [] {
      assert a + ([e] + b) == [e] + b && a + b == b;
      assert ([e] + b)[1..] == b;
    } else {
      assert (a + ([e] + b))[1..] == a[1..] + ([e] + b);
      assert (a + b)[1..] == a[1..] + b;
      BytesSplit(a[1..], e, b);
    }
  }
}
