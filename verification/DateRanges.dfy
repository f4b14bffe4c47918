/** Validity ranges with an open end, and the check that a list of them is a time line without overlaps. */
module DateRanges {
  import opened Calendar
  import opened Common
  import opened Sorting

  /** The last date a four-digit year allows: what an open end compares as. */
  const END_OF_TIME := Date(9999, 12, 31)

  predicate IsLocalDate(d: Date) {
    0 <= d.year <= 9999 && ValidDate(d)
  }

  /** A range as its constructor accepts it: valid dates in order. */
  datatype DateRange = DateRange(start: Date, end: Option<Date>) {
    predicate Valid() {
      && IsLocalDate(start)
      && (end.Some? ==> IsLocalDate(end.value) && Code(start) <= Code(end.value))
    }

    predicate Contains(d: Date) {
      Code(start) <= Code(d) && (end.Some? ==> Code(d) <= Code(end.value))
    }

    function LastCode(): int {
      Code(match end case None => END_OF_TIME case Some(e) => e)
    }

    predicate Overlaps(other: DateRange) {
      Code(start) <= other.LastCode() && Code(other.start) <= LastCode()
    }
  }

  function StartCode(r: DateRange): int {
    Code(r.start)
  }

  function Conflict(a: DateRange, b: DateRange): bool {
    a.Overlaps(b)
  }

  predicate AllValid(ranges: seq<DateRange>) {
    forall i :: 0 <= i < |ranges| ==> ranges[i].Valid()
  }

  /** No valid date has two answers. */
  ghost predicate NoDateTwice(ranges: seq<DateRange>) {
    forall d, i, j :: IsLocalDate(d) && 0 <= i < j < |ranges| ==> !(ranges[i].Contains(d) && ranges[j].Contains(d))
  }

  /** Two ranges overlap exactly when some valid date lies in both. */
  lemma OverlapIsACommonDate(a: DateRange, b: DateRange)
    requires a.Valid() && b.Valid()
    ensures a.Overlaps(b) <==> exists d :: IsLocalDate(d) && a.Contains(d) && b.Contains(d)
  {
    if a.Overlaps(b) {
      var later := if Code(a.start) <= Code(b.start) then b.start else a.start;
      assert IsLocalDate(later) && a.Contains(later) && b.Contains(later);
    }
    forall d | IsLocalDate(d)
      ensures Code(d) <= Code(END_OF_TIME)
    {
    }
  }

  lemma PairwiseIsNoDateTwice(ranges: seq<DateRange>)
    requires AllValid(ranges)
    ensures Pairwise(ranges, Conflict) <==> NoDateTwice(ranges)
  {
    forall i, j | 0 <= i < j < |ranges|
      ensures ranges[i].Overlaps(ranges[j]) <==>
              exists d :: IsLocalDate(d) && ranges[i].Contains(d) && ranges[j].Contains(d)
    {
      OverlapIsACommonDate(ranges[i], ranges[j]);
    }
    if NoDateTwice(ranges) {
      forall i, j | 0 <= i < j < |ranges|
        ensures !Conflict(ranges[i], ranges[j])
      {
      }
    }
  }

  /** In a list sorted by start, neighbours that do not overlap leave nobody overlapping. */
  lemma {:induction false} AdjacentIsGlobal(sorted: seq<DateRange>, i: nat, j: nat)
    requires AllValid(sorted) && Sorted(sorted, StartCode)
    requires forall k :: 1 <= k < |sorted| ==> !sorted[k - 1].Overlaps(sorted[k])
    requires i < j < |sorted|
    ensures sorted[i].LastCode() < Code(sorted[j].start)
    decreases j
  {
    assert StartCode(sorted[j - 1]) <= StartCode(sorted[j]);
    assert !sorted[j - 1].Overlaps(sorted[j]);
    if i < j - 1 {
      AdjacentIsGlobal(sorted, i, j - 1);
    }
  }

  lemma NeighboursSuffice(sorted: seq<DateRange>)
    requires AllValid(sorted) && Sorted(sorted, StartCode)
    requires forall k :: 1 <= k < |sorted| ==> !sorted[k - 1].Overlaps(sorted[k])
    ensures Pairwise(sorted, Conflict)
  {
    forall a, b | 0 <= a < b < |sorted|
      ensures !Conflict(sorted[a], sorted[b])
    {
      AdjacentIsGlobal(sorted, a, b);
    }
  }

  lemma SortedCopy(ranges: seq<DateRange>, sorted: seq<DateRange>)
    requires AllValid(ranges) && sorted == SortBy(ranges, StartCode)
    ensures AllValid(sorted) && Sorted(sorted, StartCode)
    ensures Pairwise(sorted, Conflict) <==> NoDateTwice(ranges)
  {
    SortByKeeps(ranges, StartCode);
    forall k | 0 <= k < |sorted|
      ensures sorted[k].Valid()
    {
      assert sorted[k] in multiset(sorted);
    }
    hide SortBy;
    PairwiseIsNoDateTwice(ranges);
    PairwiseIsOrderFree(ranges, sorted, Conflict);
  }

  lemma NeighboursConflict(sorted: seq<DateRange>, k: nat)
    requires 1 <= k < |sorted| && sorted[k - 1].Overlaps(sorted[k])
    ensures !Pairwise(sorted, Conflict)
  {
    assert Conflict(sorted[k - 1], sorted[k]);
  }

  /**
   * assertNoOverlap: it only compares neighbours of a sorted copy, and it accepts a list exactly when no valid date
   * lies in two of its ranges.
   */
  method AssertNoOverlap(ranges: seq<DateRange>) returns (accepted: bool)
    requires AllValid(ranges)
    ensures accepted <==> NoDateTwice(ranges)
  {
    hide *;
    var sorted := SortBy(ranges, StartCode);
    SortedCopy(ranges, sorted);
    var i := 1;
    while i < |sorted|
      invariant 1 <= i
      invariant forall k :: 1 <= k < i && k < |sorted| ==> !sorted[k - 1].Overlaps(sorted[k])
    {
      if sorted[i - 1].Overlaps(sorted[i]) {
        NeighboursConflict(sorted, i);
        return false;
      }
      i := i + 1;
    }
    NeighboursSuffice(sorted);
    return true;
  }

  /** The range of a list in force on a date: the first that contains it. */
  function FindEffectiveAt(ranges: seq<DateRange>, d: Date): seq<DateRange> {
    First(ranges, (r: DateRange) => r.Contains(d))
  }

  /** In an accepted list, what is in force on a date is the one range that contains it. */
  lemma EffectiveIsTheOne(ranges: seq<DateRange>, d: Date, i: nat)
    requires AllValid(ranges) && NoDateTwice(ranges) && IsLocalDate(d)
    ensures FindEffectiveAt(ranges, d) == [] <==> forall k :: 0 <= k < |ranges| ==> !ranges[k].Contains(d)
    ensures i < |ranges| && ranges[i].Contains(d) ==> FindEffectiveAt(ranges, d) == [ranges[i]]
  {
    var matches := (r: DateRange) => r.Contains(d);
    FirstFound(ranges, matches);
    assert forall k :: 0 <= k < |ranges| ==> ranges[k] in ranges;
    if i < |ranges| && ranges[i].Contains(d) {
      assert forall j :: 0 <= j < i ==> !(ranges[j].Contains(d) && ranges[i].Contains(d));
      FirstIndex(ranges, matches, i);
    }
  }

  /** In an accepted list, what is in force on a date does not depend on the order of the list. */
  lemma EffectiveIsOrderFree(ranges: seq<DateRange>, shuffled: seq<DateRange>, d: Date)
    requires AllValid(ranges) && NoDateTwice(ranges) && multiset(shuffled) == multiset(ranges) && IsLocalDate(d)
    ensures FindEffectiveAt(shuffled, d) == FindEffectiveAt(ranges, d)
  {
    FirstIsOrderFree(ranges, shuffled, (r: DateRange) => r.Contains(d));
  }
}
