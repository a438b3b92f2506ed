/**
 * The two range computations of a fetch: the upstream intervals that fill a
 * cache miss, and the ranges that a received object proves non-existent.
 * Both are related to the iteration order itself: groups ascending or
 * descending, objects inside a group always ascending.
 */
module FetchRanges {
  import opened Common
  import opened Locations
  import opened IntervalSets

  datatype GroupOrder = OldestFirst | NewestFirst

  // a is visited strictly before b.
  predicate Before(order: GroupOrder, a: Loc, b: Loc) {
    if a.group == b.group then a.obj < b.obj
    else if order.NewestFirst? then a.group > b.group
    else a.group < b.group
  }

  predicate InRange(start: Loc, end: Loc, x: Loc) {
    start.AtMost(x) && x.Less(end)
  }

  // x is an in-range location visited at or after `from` and before `to`.
  predicate Visited(order: GroupOrder, start: Loc, end: Loc, from: Loc, to: Loc, x: Loc) {
    InRange(start, end, x) && !Before(order, x, from) && Before(order, x, to)
  }

  // x is an in-range location visited at or after `from`.
  predicate Remaining(order: GroupOrder, start: Loc, end: Loc, from: Loc, x: Loc) {
    InRange(start, end, x) && !Before(order, x, from)
  }

  // The upstream request for the locations from `first` up to, not including, `past`.
  datatype Span = Span(first: Loc, past: Loc) {
    predicate Holds(x: Loc) {
      first.AtMost(x) && x.Less(past)
    }
  }

  ghost predicate Covers(spans: seq<Span>, x: Loc) {
    exists i :: 0 <= i < |spans| && spans[i].Holds(x)
  }

  // Requests are issued in iteration order, so in particular they are disjoint.
  ghost predicate InOrder(order: GroupOrder, spans: seq<Span>) {
    forall i, j, x: Loc, y: Loc ::
      0 <= i < j < |spans| && spans[i].Holds(x) && spans[j].Holds(y) ==> Before(order, x, y)
  }

  // ---- Filling a miss -------------------------------------------------------

  function GetFetchIntervals(
    start: Loc, end: Loc, miss: Loc, hit: Loc, order: GroupOrder, isTail: bool
  ): seq<Span>
    requires order.NewestFirst? ==> hit.group <= miss.group
  {
    if order != NewestFirst then
      [Span(miss, if isTail then end else hit)]
    else if miss.group == hit.group then
      [Span(miss, if isTail then OrElse(miss.NextGroup(), end) else hit)]
    else
      var missEnd := if miss.group == end.group then end else OrElse(miss.NextGroup(), end);
      var between := miss.group - hit.group - 1;
      var upper :=
        if between == 0 then
          [Span(miss, missEnd)]
        else if miss.obj == 0 then
          [Span(MaxLoc(start, Loc(miss.group - between, 0)), missEnd)]
        else
          var lo := Loc(hit.group + 1, if start.group == hit.group + 1 then start.obj else 0);
          [Span(miss, missEnd), Span(lo, Loc(miss.group, 0))];
      var lastStart := if start.group == hit.group then start else Loc(hit.group, 0);
      if hit.obj != 0 && lastStart.Less(hit) then upper + [Span(lastStart, hit)] else upper
  }

  function OrElse(a: Option<Loc>, b: Loc): Loc {
    if a.Some? then a.value else b
  }

  /** Between an in-range miss and a later in-range hit, exactly what is visited is fetched. */
  lemma FetchIntervalsCover(
    start: Loc, end: Loc, miss: Loc, hit: Loc, order: GroupOrder, isTail: bool
  )
    requires InRange(start, end, miss) && InRange(start, end, hit) && Before(order, miss, hit)
    requires !isTail || (order.NewestFirst? && miss.group != hit.group)
    ensures var spans := GetFetchIntervals(start, end, miss, hit, order, isTail);
      && (forall x: Loc :: Covers(spans, x) <==> Visited(order, start, end, miss, hit, x))
      && InOrder(order, spans) && forall i :: 0 <= i < |spans| ==> spans[i].first.Less(spans[i].past)
  {
    var spans := GetFetchIntervals(start, end, miss, hit, order, isTail);
    forall x: Loc | Visited(order, start, end, miss, hit, x) ensures Covers(spans, x) {
      assert spans[0].Holds(x) || spans[|spans| - 1].Holds(x) || (|spans| > 1 && spans[1].Holds(x));
    }
  }

  /** The oldest-first tail request is everything from the miss to the end of the range. */
  lemma AscendingTailCovers(start: Loc, end: Loc, miss: Loc, hit: Loc)
    requires InRange(start, end, miss)
    ensures var spans := GetFetchIntervals(start, end, miss, hit, OldestFirst, true);
      forall x: Loc :: Covers(spans, x) <==> Remaining(OldestFirst, start, end, miss, x)
  {
    var spans := GetFetchIntervals(start, end, miss, hit, OldestFirst, true);
    forall x: Loc | Remaining(OldestFirst, start, end, miss, x) ensures Covers(spans, x) {
      assert spans[0].Holds(x);
    }
  }

  // When the newest-first iterator finds nothing more in the cache it reports the
  // location {0, 0} in place of a hit, whether or not that location is in range.
  const SENTINEL := Loc(0, 0)

  // What a caller can see before asking for the newest-first tail.
  predicate SentinelTailExact(start: Loc, end: Loc, miss: Loc) {
    if miss.group == 0 then end.group > 0
    else start.group == 1 || (start.group > 1 && miss.obj == 0)
  }

  /**
   * The newest-first tail request built from the sentinel covers the rest of the
   * range, and nothing else, in exactly the cases of SentinelTailExact.
   */
  lemma SentinelTail(start: Loc, end: Loc, miss: Loc)
    requires InRange(start, end, miss)
    ensures (forall x: Loc ::
        Covers(GetFetchIntervals(start, end, miss, SENTINEL, NewestFirst, true), x)
        <==> Remaining(NewestFirst, start, end, miss, x))
      <==> SentinelTailExact(start, end, miss)
  {
    var spans := GetFetchIntervals(start, end, miss, SENTINEL, NewestFirst, true);
    if SentinelTailExact(start, end, miss) {
      forall x: Loc | Remaining(NewestFirst, start, end, miss, x) ensures Covers(spans, x) {
        assert spans[0].Holds(x) || (|spans| > 1 && spans[1].Holds(x));
      }
    } else {
      // A location the request gets wrong: past the end, below the start, or left out.
      var x := if miss.group == 0 then end
               else if start.group == 0 then start
               else Loc(1, 0);
      assert Covers(spans, x) != Remaining(NewestFirst, start, end, miss, x) by {
        if miss.group == 0 {
          assert spans[0].Holds(x);
        } else if start.group > 0 {
          assert spans[1].Holds(x);
        }
      }
    }
  }

  // ---- The end of a range on the wire --------------------------------------------

  // A requested end {g, 0} stands for all of group g; the loop wants the exclusive end.
  function DecodeEnd(end: Loc): Loc {
    if end.obj > 0 then end else OrElse(end.NextGroup(), MAX_LOC)
  }

  // The upstream request for an exclusive end.
  function EncodeEnd(end: Loc): Loc
    requires end != Loc(0, 0)
  {
    if end.obj > 0 then end else end.PrevGroup().value
  }

  /** What is requested upstream is understood as the same exclusive end. */
  lemma EndRoundTrip(end: Loc)
    ensures end != Loc(0, 0) ==> DecodeEnd(EncodeEnd(end)) == end
    ensures EncodeEnd(DecodeEnd(end)) == end <==> end != Loc(MAX_ID, 0)
  {
  }

  // ---- What a received object proves absent -----------------------------------

  function GetGapRanges(start: Loc, target: Loc, order: GroupOrder, fetchStart: Loc, fetchEnd: Loc): Intervals
    requires order.NewestFirst? && target.group < start.group == fetchEnd.group ==> fetchEnd.obj > 0
  {
    if !Before(order, start, target) then []
    else if start.group == target.group then
      [Interval(start, Loc(target.group, target.obj - 1))]
    else if order != NewestFirst then
      [Interval(start, target.Prev().value)]
    else
      var startGroupEnd :=
        if start.group == fetchEnd.group then fetchEnd.PrevInGroup().value else Loc(start.group, MAX_ID);
      var afterTarget := target.NextGroup().value;
      var beforeStart := start.PrevGroupEnd().value;
      var targetGroupStart := if target.group == fetchStart.group then fetchStart else Loc(target.group, 0);
      [Interval(start, startGroupEnd)]
      + (if beforeStart.group >= afterTarget.group then [Interval(afterTarget, beforeStart)] else [])
      + (if targetGroupStart.Less(target) then [Interval(targetGroupStart, target.PrevInGroup().value)] else [])
  }

  ghost predicate PairwiseDisjoint(ranges: Intervals) {
    forall i, j, x: Loc :: 0 <= i < j < |ranges| && ranges[i].Holds(x) ==> !ranges[j].Holds(x)
  }

  /** The ranges hold exactly the in-range locations passed over on the way to the target. */
  lemma GapRangesExact(start: Loc, target: Loc, order: GroupOrder, fetchStart: Loc, fetchEnd: Loc)
    requires InRange(fetchStart, fetchEnd, start)
    requires fetchStart.AtMost(target) && target.AtMost(fetchEnd)
    ensures var ranges := GetGapRanges(start, target, order, fetchStart, fetchEnd);
      forall x: Loc :: Contains(ranges, x) <==> Visited(order, fetchStart, fetchEnd, start, target, x)
  {
    var ranges := GetGapRanges(start, target, order, fetchStart, fetchEnd);
    forall x: Loc
      ensures Contains(ranges, x) <==> Visited(order, fetchStart, fetchEnd, start, target, x)
    {
      ContainsAt(ranges, x);
      if Visited(order, fetchStart, fetchEnd, start, target, x) {
        assert ranges[0].Holds(x) || ranges[|ranges| - 1].Holds(x) || (|ranges| > 1 && ranges[1].Holds(x));
      }
    }
  }

  /** The ranges are non-empty and pairwise disjoint, so no location is inserted twice. */
  lemma GapRangesDisjoint(start: Loc, target: Loc, order: GroupOrder, fetchStart: Loc, fetchEnd: Loc)
    requires order.NewestFirst? && target.group < start.group == fetchEnd.group ==> start.Less(fetchEnd)
    ensures var ranges := GetGapRanges(start, target, order, fetchStart, fetchEnd);
      && PairwiseDisjoint(ranges)
      && (forall i :: 0 <= i < |ranges| ==> ranges[i].lo.AtMost(ranges[i].hi))
  {
  }

  /** Neither the target nor anything behind the start in iteration order is marked. */
  lemma GapRangesAhead(start: Loc, target: Loc, order: GroupOrder, fetchStart: Loc, fetchEnd: Loc, x: Loc)
    requires order.NewestFirst? && target.group < start.group == fetchEnd.group ==> fetchEnd.obj > 0
    requires x == target || Before(order, x, start)
    ensures !Contains(GetGapRanges(start, target, order, fetchStart, fetchEnd), x)
  {
    ContainsAt(GetGapRanges(start, target, order, fetchStart, fetchEnd), x);
  }

  // What must hold of the target for every marked location to lie in the fetched range.
  predicate TargetKeepsRange(start: Loc, target: Loc, order: GroupOrder, fetchStart: Loc, fetchEnd: Loc) {
    if order == OldestFirst || start.group == target.group then target.AtMost(fetchEnd)
    else
      || target.group >= fetchStart.group
      || (target.obj == 0 && (start.group == target.group + 1 || fetchStart == Loc(target.group + 1, 0)))
  }

  /** A target later in iteration order marks nothing outside the fetched range iff TargetKeepsRange. */
  lemma GapRangesInsideRange(start: Loc, target: Loc, order: GroupOrder, fetchStart: Loc, fetchEnd: Loc)
    requires InRange(fetchStart, fetchEnd, start)
    requires Before(order, start, target)
    ensures var ranges := GetGapRanges(start, target, order, fetchStart, fetchEnd);
      (forall x: Loc :: Contains(ranges, x) ==> InRange(fetchStart, fetchEnd, x))
      <==> TargetKeepsRange(start, target, order, fetchStart, fetchEnd)
  {
    var ranges := GetGapRanges(start, target, order, fetchStart, fetchEnd);
    if TargetKeepsRange(start, target, order, fetchStart, fetchEnd) {
      forall x: Loc | Contains(ranges, x) ensures InRange(fetchStart, fetchEnd, x) {
        ContainsAt(ranges, x);
      }
    } else {
      var x := if order == OldestFirst || start.group == target.group then fetchEnd
               else if target.obj > 0 then Loc(target.group, 0)
               else Loc(target.group + 1, 0);
      assert ranges[|ranges| - 1].Holds(x);
      ContainsAt(ranges, x);
      assert Contains(ranges, x) && !InRange(fetchStart, fetchEnd, x);
    }
  }
}
