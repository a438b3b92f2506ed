/**
 * The group-order-aware iterator over a fetch range. It jumps over known gaps
 * and uncached stretches; every jump is proved to land where a walk over one
 * location at a time would land.
 */
module FetchIterators {
  import opened Common
  import opened Locations
  import opened IntervalSets
  import opened FetchRanges
  import opened CacheTracks

  // ---- Jumps, as functions of the interval sets ---------------------------------

  // Where the newest-first iterator goes from a gap that starts at gapStart.
  function ComputeDescendingAfterGap(current: Loc, gapStart: Loc, min: Loc): Option<Loc> {
    if gapStart.obj > 0 && gapStart.group != current.group then
      Some(Loc(gapStart.group, if gapStart.group == min.group then min.obj else 0))
    else if gapStart.group == 0 then None
    else
      Some(Loc(gapStart.group - 1, if gapStart.group - 1 == min.group then min.obj else 0))
  }

  // The last object of the group that a fetch ending before `max` asks for.
  function LastInGroup(group: Id, max: Loc): Loc
    requires group < max.group || (group == max.group && max.obj > 0)
  {
    Loc(group, if group == max.group then max.obj - 1 else MAX_ID)
  }

  // x is passed over when the newest-first iterator jumps from current to target.
  predicate JumpedOver(min: Loc, max: Loc, current: Loc, target: Option<Loc>, x: Loc) {
    && Remaining(NewestFirst, min, max, current, x)
    && (target.Some? && min.AtMost(target.value) ==> Before(NewestFirst, x, target.value))
  }

  /**
   * One newest-first jump goes strictly forward, and passes over nothing but the
   * gap exactly when the gap reaches the last requested object of the current group.
   */
  lemma DescendingJump(gaps: Intervals, current: Loc, min: Loc, max: Loc)
    requires IntervalSets.Valid(gaps) && Contains(gaps, current) && InRange(min, max, current)
    ensures var gap := FindInterval(gaps, current).value;
      var target := ComputeDescendingAfterGap(current, gap.lo, min);
      && (target.Some? ==> target.value.group < current.group)
      && ((forall x: Loc :: JumpedOver(min, max, current, target, x) ==> Contains(gaps, x))
          <==> gap.Holds(LastInGroup(current.group, max)))
  {
    FoundIsMaximal(gaps, current);
    var gap := FindInterval(gaps, current).value;
    var target := ComputeDescendingAfterGap(current, gap.lo, min);
    if gap.Holds(LastInGroup(current.group, max)) {
      forall x: Loc | JumpedOver(min, max, current, target, x) ensures Contains(gaps, x) {
        assert gap.Holds(x);
      }
    } else {
      var x := gap.hi.Next().value;
      assert JumpedOver(min, max, current, target, x) && !Contains(gaps, x);
    }
  }

  // The first cached location in a group below the current one, newest group first.
  function FindPrevGroupCached(cached: Intervals, current: Loc, min: Loc): (r: Option<Loc>)
    requires IntervalSets.Valid(cached)
  {
    var below := current.PrevGroupEnd();
    if below.None? then None
    else
      var around := FindInterval(cached, below.value);
      var prev := if around.Some? then around else FindPrevInterval(cached, below.value);
      if prev.None? || prev.value.hi.Less(min) then None
      else
        var group := if prev.value.hi.group < below.value.group then prev.value.hi.group else below.value.group;
        var target := MaxLoc(Loc(group, 0), min);
        if Contains(cached, target) then Some(target)
        else
          assert target.Less(if around.Some? then below.value else prev.value.hi) by {
            FoundReaches(cached, below.value, min);
          }
          var next := FindNextInterval(cached, target);
          assert next.Some? && next.value.lo.group == group;
          Some(next.value.lo)
  }

  // A run around x that reaches y holds everything in between.
  lemma FoundReaches(s: Intervals, x: Loc, y: Loc)
    requires IntervalSets.Valid(s)
    ensures FindInterval(s, x).Some? && x.AtMost(y) && y.AtMost(FindInterval(s, x).value.hi) ==> Contains(s, y)
  {
    if Contains(s, x) {
      FoundIsMaximal(s, x);
    }
  }

  // A cached location of a lower group, inside the range.
  predicate CachedBelow(cached: Intervals, current: Loc, min: Loc, x: Loc) {
    Contains(cached, x) && x.group < current.group && min.AtMost(x)
  }

  /** From any group above the minimum the jump is the first cached location further on. */
  lemma PrevGroupCachedIsFirst(cached: Intervals, current: Loc, min: Loc)
    requires IntervalSets.Valid(cached) && current.group > min.group
    ensures match FindPrevGroupCached(cached, current, min)
      case Some(r) =>
        && CachedBelow(cached, current, min, r)
        && (forall x: Loc :: CachedBelow(cached, current, min, x) && x != r ==> Before(NewestFirst, r, x))
      case None => forall x: Loc :: !CachedBelow(cached, current, min, x)
  {
    var below := current.PrevGroupEnd().value;
    FoundReaches(cached, below, min);
  }

  /**
   * In the minimum group itself there is nothing further on, but a run of cached
   * content that crosses into the group sends the iterator back to its start.
   */
  lemma PrevGroupCachedAtMinimum(cached: Intervals, current: Loc, min: Loc)
    requires IntervalSets.Valid(cached) && current.group == min.group > 0
    ensures var below := Loc(min.group - 1, MAX_ID);
      var r := FindPrevGroupCached(cached, current, min);
      && (r == Some(min) <==> Contains(cached, below) && min.AtMost(FindInterval(cached, below).value.hi))
      && (r == None || r == Some(min))
  {
    FoundReaches(cached, Loc(min.group - 1, MAX_ID), min);
  }

  // ---- The iterator ---------------------------------------------------------------

  // The position of a location in lexicographic order.
  function Rank(x: Loc): nat {
    x.group * (MAX_ID + 1) + x.obj
  }

  // Inside the range, a gap never ends before its group does.
  ghost predicate GapsCloseGroups(gaps: Intervals, min: Loc, max: Loc) {
    forall x: Loc, y: Loc ::
      InRange(min, max, x) && InRange(min, max, y) && x.group == y.group && x.obj < y.obj && Contains(gaps, x)
      ==> Contains(gaps, y)
  }

  // Everything visited from `from` up to `to` is a gap.
  ghost predicate OnlyGaps(gaps: Intervals, order: GroupOrder, min: Loc, max: Loc, from: Loc, to: Loc) {
    forall x: Loc :: Visited(order, min, max, from, to, x) ==> Contains(gaps, x)
  }

  // Everything still to be visited from `from` on is a gap.
  ghost predicate OnlyGapsLeft(gaps: Intervals, order: GroupOrder, min: Loc, max: Loc, from: Loc) {
    forall x: Loc :: Remaining(order, min, max, from, x) ==> Contains(gaps, x)
  }

  lemma DescendingSkip(gaps: Intervals, min: Loc, max: Loc, from: Loc, current: Loc)
    requires IntervalSets.Valid(gaps) && Contains(gaps, current) && InRange(min, max, current)
    requires GapsCloseGroups(gaps, min, max) && OnlyGaps(gaps, NewestFirst, min, max, from, current)
    ensures var target := ComputeDescendingAfterGap(current, FindInterval(gaps, current).value.lo, min);
      if target.Some? && min.AtMost(target.value) then
        InRange(min, max, target.value) && OnlyGaps(gaps, NewestFirst, min, max, from, target.value)
      else
        OnlyGapsLeft(gaps, NewestFirst, min, max, from)
  {
    FoundIsMaximal(gaps, current);
    DescendingJump(gaps, current, min, max);
  }

  lemma AscendingSkip(gaps: Intervals, min: Loc, max: Loc, from: Loc, current: Loc, to: Loc)
    requires IntervalSets.Valid(gaps) && Contains(gaps, current)
    requires OnlyGaps(gaps, OldestFirst, min, max, from, current)
    requires var after := FindInterval(gaps, current).value.hi.Next(); after.Some? ==> to.AtMost(after.value)
    ensures OnlyGaps(gaps, OldestFirst, min, max, from, to)
  {
    FoundIsMaximal(gaps, current);
    forall x: Loc | Visited(OldestFirst, min, max, from, to, x) ensures Contains(gaps, x) {
      assert Before(OldestFirst, x, current) || FindInterval(gaps, current).value.Holds(x);
    }
  }

  // A newest-first skip stays, goes down to a lower group, or ends.
  predicate Lower(from: Loc, end: Loc, current: Loc) {
    current == from || current.group < from.group || current == end
  }

  /**
   * The position the iterator moves to from `from`: the first location in
   * iteration order that is not a gap, or the end when only gaps are left.
   */
  method AfterGaps(gaps: Intervals, order: GroupOrder, min: Loc, max: Loc, from: Loc, end: Loc) returns (current: Loc)
    requires IntervalSets.Valid(gaps)
    requires order == OldestFirst ==> from.AtMost(end)
    ensures current == end || !Contains(gaps, current)
    ensures !Contains(gaps, from) ==> current == from
    ensures order == NewestFirst ==> Lower(from, end, current)
    ensures order == OldestFirst ==>
      && from.AtMost(current) && current.AtMost(end)
      && OnlyGaps(gaps, order, min, max, from, current)
    ensures order == NewestFirst && InRange(min, max, from) && GapsCloseGroups(gaps, min, max) ==>
      || (InRange(min, max, current) && !Contains(gaps, current) && OnlyGaps(gaps, order, min, max, from, current))
      || (current == end && OnlyGapsLeft(gaps, order, min, max, from))
  {
    current := from;
    ghost var closed := order == NewestFirst && InRange(min, max, current) && GapsCloseGroups(gaps, min, max);
    while Contains(gaps, current)
      invariant !Contains(gaps, from) ==> current == from
      invariant current == from || (order == NewestFirst ==> current.group < from.group)
      invariant order == OldestFirst ==> from.AtMost(current) && current.AtMost(end)
      invariant closed ==> InRange(min, max, current)
      invariant order == OldestFirst || closed ==> OnlyGaps(gaps, order, min, max, from, current)
      decreases if order == OldestFirst then Rank(MAX_LOC) - Rank(current) else current.group
    {
      var gap := FindInterval(gaps, current).value;
      var after := if order == OldestFirst then gap.hi.Next() else ComputeDescendingAfterGap(current, gap.lo, min);
      if closed {
        DescendingSkip(gaps, min, max, from, current);
      }
      if after.Some? && (if order == OldestFirst then after.value.Less(end) else min.AtMost(after.value)) {
        if order == OldestFirst {
          AscendingSkip(gaps, min, max, from, current, after.value);
        }
        current := after.value;
      } else {
        if order == OldestFirst {
          AscendingSkip(gaps, min, max, from, current, end);
        }
        current := end;
        return;
      }
    }
  }

  // ---- Steps inside and between groups ------------------------------------------

  // The object number up to which the iterator stays in a group; none when nothing
  // is known of the group.
  function FindGroupEnd(t: Track, group: Id, min: Loc, max: Loc, order: GroupOrder): Option<Id>
    requires order == NewestFirst && group == max.group != min.group ==> max.obj > 0
  {
    if group == max.group then
      Some(if order == NewestFirst && group != min.group then max.obj - 1 else max.obj)
    else if group !in t.groups then None
    else
      var known := t.groups[group];
      var afterCached := if known.maxCached < MAX_ID then known.maxCached + 1 else known.maxCached;
      var firstUncached := if afterCached < MAX_ID then afterCached + 1 else afterCached;
      if group == min.group && order == NewestFirst then
        Some(if known.ended then afterCached else firstUncached)
      else
        Some(if known.ended then known.maxCached else afterCached)
  }

  // One oldest-first step.
  function AdvanceAscending(t: Track, min: Loc, max: Loc, current: Loc, end: Loc): (r: Loc)
    requires current == end || current.Less(max)
  {
    if current == end then current
    else
      var groupEnd := FindGroupEnd(t, current.group, min, max, OldestFirst);
      if groupEnd.Some? && current.obj < groupEnd.value then Loc(current.group, current.obj + 1)
      else if current.group == max.group then end
      else Loc(current.group + 1, 0)
  }

  // The group of x is still known well enough to step through it.
  predicate StepExact(t: Track, x: Loc, max: Loc) {
    || x.group == max.group
    || x.obj == MAX_ID
    || (x.group in t.groups && (t.groups[x.group].ended || x.obj <= t.groups[x.group].maxCached))
  }

  // The group of x is known to hold nothing behind it.
  predicate EndsAt(t: Track, x: Loc) {
    x.group in t.groups && t.groups[x.group].ended && t.groups[x.group].maxCached <= x.obj
  }

  /**
   * A step passes over gaps only exactly when the group is still known, or holds
   * nothing but gaps behind the current location; otherwise the step goes to the
   * next group all the same.
   */
  lemma AdvanceAscendingExact(t: Track, min: Loc, max: Loc, current: Loc)
    requires TrackOk(t) && InRange(min, max, current)
    ensures var r := AdvanceAscending(t, min, max, current, max);
      && current.Less(r) && r.AtMost(max)
      && ((forall x: Loc :: current.Less(x) && x.Less(r) ==> Contains(t.gaps, x))
          <==> StepExact(t, current, max) || EndedAfter(t, current))
      && (!StepExact(t, current, max) ==> r == Loc(current.group + 1, 0))
      && (current.group < max.group && EndsAt(t, current) ==> r == Loc(current.group + 1, 0))
  {
    var r := AdvanceAscending(t, min, max, current, max);
    if !StepExact(t, current, max) {
      assert forall x: Loc :: x.group == current.group && x.obj > current.obj <==> current.Less(x) && x.Less(r);
    }
  }

  // One newest-first step; none when there is no group further down.
  function AdvanceDescending(t: Track, min: Loc, max: Loc, current: Loc): Option<Loc>
    requires current.group == max.group != min.group ==> max.obj > 0
  {
    var groupEnd := FindGroupEnd(t, current.group, min, max, NewestFirst);
    if groupEnd.Some? && current.obj < groupEnd.value then Some(Loc(current.group, current.obj + 1))
    else if current.group == 0 then None
    else Some(Loc(current.group - 1, if current.group - 1 == min.group then min.obj else 0))
  }

  // The newest-first counterpart, which goes one object further in the lowest group.
  predicate StepExactDescending(t: Track, x: Loc, min: Loc, max: Loc) {
    || StepExact(t, x, max)
    || (x.group == min.group && x.group in t.groups && x.obj <= t.groups[x.group].maxCached + 1)
  }

  // The group of x is known to end there; in the lowest group the iteration ends one further.
  predicate LeavesDescending(t: Track, x: Loc, min: Loc) {
    && x.group in t.groups && t.groups[x.group].ended
    && (if x.group == min.group && t.groups[x.group].maxCached < MAX_ID then t.groups[x.group].maxCached < x.obj
        else t.groups[x.group].maxCached <= x.obj)
  }

  // What is passed over by a newest-first step from current to target.
  predicate SteppedOver(min: Loc, max: Loc, current: Loc, target: Option<Loc>, x: Loc) {
    x != current && JumpedOver(min, max, current, target, x)
  }

  /** The same for a newest-first step that stays in the range or leaves it at the bottom. */
  lemma AdvanceDescendingExact(t: Track, min: Loc, max: Loc, current: Loc)
    requires TrackOk(t) && InRange(min, max, current)
    ensures var target := AdvanceDescending(t, min, max, current);
      && (target.Some? ==> Before(NewestFirst, current, target.value))
      && ((forall x: Loc :: SteppedOver(min, max, current, target, x) ==> Contains(t.gaps, x))
          <==> StepExactDescending(t, current, min, max) || EndedAfter(t, current))
      && (current.group != max.group && LeavesDescending(t, current, min) ==>
            target == if current.group == 0 then None
                      else Some(Loc(current.group - 1, if current.group - 1 == min.group then min.obj else 0)))
  {
    var target := AdvanceDescending(t, min, max, current);
    if StepExactDescending(t, current, min, max) || EndedAfter(t, current) {
      forall x: Loc | SteppedOver(min, max, current, target, x) ensures Contains(t.gaps, x) {
        assert x.group == current.group && x.obj > current.obj;
      }
    } else {
      var x: Loc :| x.group == current.group && x.obj > current.obj && !Contains(t.gaps, x);
      assert SteppedOver(min, max, current, target, x);
    }
  }

  // The next indexed location in oldest-first order, or the end.
  function NextBoundary(cached: Intervals, current: Loc, end: Loc): (r: Loc)
    requires IntervalSets.Valid(cached) && current.AtMost(end)
    ensures current.AtMost(r) && r.AtMost(end)
    ensures forall x: Loc :: current.AtMost(x) && x.Less(r) ==> !Contains(cached, x)
    ensures r == current <==> current == end || Contains(cached, current)
    ensures r == end || Contains(cached, r)
  {
    if current == end || Contains(cached, current) then current
    else
      var next := FindNextInterval(cached, current);
      if next.None? || !next.value.lo.Less(end) then end else next.value.lo
  }

  // An indexed location at or above `min` visited, newest first, at or after `current`.
  predicate IndexedAhead(cached: Intervals, min: Loc, current: Loc, x: Loc) {
    Contains(cached, x) && min.AtMost(x) && !Before(NewestFirst, x, current)
  }

  // The next indexed location in newest-first order, if there is one.
  function NextBoundaryDescending(cached: Intervals, min: Loc, current: Loc): Option<Loc>
    requires IntervalSets.Valid(cached)
  {
    var next := FindNextInterval(cached, current);
    if next.Some? && next.value.lo.group == current.group then Some(next.value.lo)
    else FindPrevGroupCached(cached, current, min)
  }

  /** From an unindexed location above the minimum group, no indexed location is jumped over. */
  lemma NextBoundaryDescendingIsFirst(cached: Intervals, min: Loc, current: Loc)
    requires IntervalSets.Valid(cached) && !Contains(cached, current) && current.group > min.group
    ensures match NextBoundaryDescending(cached, min, current)
      case Some(r) =>
        && IndexedAhead(cached, min, current, r)
        && (forall x: Loc :: IndexedAhead(cached, min, current, x) ==> !Before(NewestFirst, x, r))
      case None => forall x: Loc :: !IndexedAhead(cached, min, current, x)
  {
    var next := FindNextInterval(cached, current);
    if next.Some? && next.value.lo.group == current.group {
      var r := next.value.lo;
      forall x: Loc | IndexedAhead(cached, min, current, x) ensures !Before(NewestFirst, x, r) {
        assert x.group == current.group ==> !x.Less(r);
      }
    } else {
      NothingLaterInGroup(cached, current);
      PrevGroupCachedIsFirst(cached, current, min);
      assert forall x: Loc :: IndexedAhead(cached, min, current, x) <==> CachedBelow(cached, current, min, x);
    }
  }

  lemma NothingLaterInGroup(cached: Intervals, current: Loc)
    requires IntervalSets.Valid(cached) && !Contains(cached, current)
    requires var next := FindNextInterval(cached, current); next.Some? ==> next.value.lo.group != current.group
    ensures forall x: Loc :: x.group == current.group && current.AtMost(x) ==> !Contains(cached, x)
  {
  }

  /**
   * The jump leaves the range exactly when, in the topmost group, the next indexed
   * location lies at or past the end of the range.
   */
  lemma NextBoundaryDescendingLeavesRange(cached: Intervals, min: Loc, max: Loc, current: Loc)
    requires IntervalSets.Valid(cached) && !Contains(cached, current)
    requires InRange(min, max, current) && current.group > min.group
    ensures var r := NextBoundaryDescending(cached, min, current);
      r.Some? && !InRange(min, max, r.value) <==>
        && current.group == max.group
        && (exists x: Loc :: x.group == max.group && max.AtMost(x) && Contains(cached, x))
        && (forall x: Loc :: x.group == max.group && InRange(current, max, x) ==> !Contains(cached, x))
  {
    NextBoundaryDescendingIsFirst(cached, min, current);
    var r := NextBoundaryDescending(cached, min, current);
    if r.Some? && !InRange(min, max, r.value) {
      assert r.value.group == max.group && max.AtMost(r.value) && Contains(cached, r.value);
    }
    if current.group == max.group {
      forall x: Loc | x.group == max.group && current.AtMost(x) && Contains(cached, x)
        ensures r.Some? && r.value.group == max.group && r.value.AtMost(x)
      {
        assert IndexedAhead(cached, min, current, x);
      }
    }
  }

  // Where a newest-first iteration ends: behind the last object of the lowest group.
  function LastOf(t: Track, min: Loc, max: Loc): Loc {
    if min.group == max.group then max
    else if min.group in t.groups && t.groups[min.group].ended && t.groups[min.group].maxCached < MAX_ID
    then Loc(min.group, t.groups[min.group].maxCached + 1)
    else Loc(min.group, MAX_ID)
  }

  class FetchRangeIterator {
    const min: Loc
    const max: Loc
    const order: GroupOrder
    var track: Track
    var current: Loc
    var end: Loc
    var valid: bool

    ghost predicate Ok()
      reads this
    {
      && IntervalSets.Valid(track.gaps)
      && IntervalSets.Valid(track.cached)
      && min.AtMost(max)
      && (order == OldestFirst && valid ==> current.AtMost(max) && (end == max || end == current))
    }

    // The first position of the range, past any gap there.
    constructor (start: Loc, past: Loc, groupOrder: GroupOrder, t: Track)
      requires start.AtMost(past)
      requires IntervalSets.Valid(t.gaps) && IntervalSets.Valid(t.cached)
      ensures Ok() && valid && track == t && min == start && max == past && order == groupOrder
      ensures order == OldestFirst ==> end == max && min.AtMost(current) && OnlyGaps(t.gaps, order, min, max, min, current)
      ensures order == NewestFirst ==> end == LastOf(t, min, max)
      ensures order == NewestFirst && start.Less(past) && GapsCloseGroups(t.gaps, min, max) ==>
        || (&& InRange(min, max, current) && !Contains(t.gaps, current)
            && (forall x: Loc :: InRange(min, max, x) && Before(order, x, current) ==> Contains(t.gaps, x)))
        || (current == end && forall x: Loc :: InRange(min, max, x) ==> Contains(t.gaps, x))
    {
      min, max, order, track, valid := start, past, groupOrder, t, true;
      var first, last := start, past;
      if groupOrder == NewestFirst && start.group != past.group {
        var top := if past.obj == 0 then past.group - 1 else past.group;
        first := Loc(top, if top == start.group then start.obj else 0);
        last := Loc(start.group,
          if start.group in t.groups && t.groups[start.group].ended && t.groups[start.group].maxCached < MAX_ID
          then t.groups[start.group].maxCached + 1 else MAX_ID);
      }
      end := last;
      var position := AfterGaps(t.gaps, groupOrder, start, past, first, last);
      current := position;
    }

    // Skip over any gap at the current position.
    method SkipGaps()
      requires Ok()
      modifies this`current
      ensures Ok()
      ensures !valid ==> current == old(current)
      ensures valid ==> current == end || !Contains(track.gaps, current)
      ensures !Contains(track.gaps, old(current)) ==> current == old(current)
      ensures order == NewestFirst ==> Lower(old(current), end, current)
      ensures order == OldestFirst && valid ==>
        old(current).AtMost(current) && OnlyGaps(track.gaps, order, min, max, old(current), current)
      ensures order == NewestFirst && valid && InRange(min, max, old(current)) && GapsCloseGroups(track.gaps, min, max) ==>
        || (InRange(min, max, current) && OnlyGaps(track.gaps, order, min, max, old(current), current))
        || (current == end && OnlyGapsLeft(track.gaps, order, min, max, old(current)))
    {
      if valid {
        current := AfterGaps(track.gaps, order, min, max, current, end);
      }
    }

    // Skip to the next indexed location. Newest first, nothing left is reported by
    // the position {0, 0} of an invalid iterator.
    method SkipUncached()
      requires Ok()
      modifies this`current, this`valid
      ensures Ok()
      ensures order == OldestFirst && old(valid) ==>
        valid && current == NextBoundary(track.cached, old(current), end)
      ensures order == NewestFirst && old(valid) && old(current) != end && !Contains(track.cached, old(current)) ==>
        match NextBoundaryDescending(track.cached, min, old(current))
        case Some(r) => valid && current == r
        case None => !valid && current == SENTINEL
    {
      if !valid || current == end || Contains(track.cached, current) {
        return;
      }
      if order == OldestFirst {
        current := NextBoundary(track.cached, current, end);
      } else {
        var target := NextBoundaryDescending(track.cached, min, current);
        if target.None? {
          current, valid := SENTINEL, false;
        } else {
          current := target.value;
        }
      }
    }

    // A single step without gap skipping.
    method AdvanceOne()
      requires Ok()
      requires order == NewestFirst && current.group == max.group != min.group ==> max.obj > 0
      modifies this`current, this`valid
      ensures Ok()
      ensures !old(valid) ==> !valid && current == old(current)
      ensures order == OldestFirst && old(valid) && end == max ==>
        valid && current == AdvanceAscending(track, min, max, old(current), max)
      ensures order == NewestFirst && old(valid) ==>
        if old(current) == end then valid && current == end
        else match AdvanceDescending(track, min, max, old(current))
          case Some(target) => valid && current == target
          case None => !valid && current == old(current)
    {
      if !valid || current == end {
        return;
      }
      var groupEnd := FindGroupEnd(track, current.group, min, max, order);
      if groupEnd.Some? && current.obj < groupEnd.value {
        current := Loc(current.group, current.obj + 1);
      } else if order == NewestFirst {
        if current.group == 0 {
          valid := false;
        } else {
          current := Loc(current.group - 1, if current.group - 1 == min.group then min.obj else 0);
        }
      } else {
        current := if current.group == max.group then end else Loc(current.group + 1, 0);
      }
    }

    // One step, then past any gap.
    method Next()
      requires Ok()
      requires order == NewestFirst && current.group == max.group != min.group ==> max.obj > 0
      modifies this`current, this`valid
      ensures Ok()
      ensures !old(valid) ==> !valid && current == old(current)
      ensures order == OldestFirst && old(valid) && end == max && InRange(min, max, old(current)) && TrackOk(track) ==>
        && valid && old(current).Less(current)
        && (current == max || !Contains(track.gaps, current))
        && (StepExact(track, old(current), max) ==>
              forall x: Loc :: old(current).Less(x) && x.Less(current) ==> Contains(track.gaps, x))
        && (!StepExact(track, old(current), max) ==>
              && old(current).group < current.group
              && forall x: Loc :: old(current).group < x.group && x.Less(current) ==> Contains(track.gaps, x))
      ensures order == NewestFirst && old(current) == end && !Contains(track.gaps, end) ==> current == end
      ensures order == NewestFirst && old(valid) && old(current) != end ==>
        match AdvanceDescending(track, min, max, old(current))
        case None => !valid && current == old(current)
        case Some(target) =>
          && valid && (current == end || !Contains(track.gaps, current)) && Lower(target, end, current)
          && (InRange(min, max, target) && GapsCloseGroups(track.gaps, min, max) ==>
                || (InRange(min, max, current) && OnlyGaps(track.gaps, order, min, max, target, current))
                || (current == end && OnlyGapsLeft(track.gaps, order, min, max, target)))
    {
      ghost var from := current;
      AdvanceOne();
      ghost var stepped := current;
      SkipGaps();
      if order == OldestFirst && old(valid) && end == max && InRange(min, max, from) && TrackOk(track) {
        AdvanceAscendingExact(track, min, max, from);
        assert forall x: Loc :: stepped.AtMost(x) && x.Less(current) ==> Visited(order, min, max, stepped, current, x);
      }
    }

    // Jump to a location, then past any gap; leaving the range ends the iteration.
    method AdvanceTo(loc: Loc)
      requires Ok() && (order == OldestFirst ==> end == max)
      modifies this`current, this`valid
      ensures Ok()
      ensures order == OldestFirst ==> valid == (old(valid) && !max.Less(loc))
      ensures order == NewestFirst ==> valid == (old(valid) && min.AtMost(loc))
      ensures valid && order == OldestFirst ==>
        loc.AtMost(current) && OnlyGaps(track.gaps, order, min, max, loc, current)
      ensures valid && order == NewestFirst && InRange(min, max, loc) && GapsCloseGroups(track.gaps, min, max) ==>
        || (InRange(min, max, current) && OnlyGaps(track.gaps, order, min, max, loc, current))
        || (current == end && OnlyGapsLeft(track.gaps, order, min, max, loc))
      ensures valid ==> current == end || !Contains(track.gaps, current)
      ensures !valid || !Contains(track.gaps, loc) ==> current == loc
    {
      current := loc;
      if order == OldestFirst && max.Less(current) {
        valid := false;
      } else if order == NewestFirst && current.Less(min) {
        valid := false;
      } else {
        SkipGaps();
      }
    }

    // The position at which iteration stops, which the end of the track may bring forward.
    method End() returns (e: Loc)
      requires Ok() && (track.endOfTrack ==> track.largest.Some?)
      requires order == NewestFirst && end.group == max.group != min.group ==> max.obj > 0
      modifies this`end
      ensures Ok() && e == end
      ensures order == OldestFirst && valid ==>
        end == if track.endOfTrack && track.largest.value.Less(current) then current else old(end)
      ensures !valid ==> end == current
      ensures order == NewestFirst && valid ==>
        if track.endOfTrack && track.largest.value.Less(current) then end == current
        else match FindGroupEnd(track, old(end).group, min, max, order)
          case Some(last) => end == Loc(old(end).group, last)
          case None => end == old(end)
    {
      if (track.endOfTrack && track.largest.value.Less(current)) || !valid {
        end := current;
      } else if order == NewestFirst {
        var last := FindGroupEnd(track, end.group, min, max, order);
        if last.Some? {
          end := Loc(end.group, last.value);
        }
      }
      e := end;
    }

    /**
     * An object received at `target` proves absent what the iteration passed on the
     * way there, and nothing outside the range unless the target itself lies outside.
     */
    method MarkNonExistentTo(target: Loc)
      requires Ok() && TrackOk(track) && (order == OldestFirst ==> end == max)
      requires order == NewestFirst && target.group < current.group == max.group ==> current.Less(max)
      modifies this`track, this`current, this`valid
      ensures Ok() && TrackOk(track) && track.groups == old(track.groups)
      ensures IndexExact(old(track)) ==> IndexExact(track)
      ensures InRange(min, max, old(current)) || (order == OldestFirst && max.AtMost(old(current))) ==>
        min.AtMost(target) && target.AtMost(max) ==>
        forall x: Loc :: Contains(track.gaps, x) <==>
          Contains(old(track.gaps), x) || Visited(order, min, max, old(current), target, x)
      ensures old(current) != target ==>
        forall x: Loc :: Contains(track.gaps, x) <==>
          Contains(old(track.gaps), x) || Contains(GetGapRanges(old(current), target, order, min, max), x)
      ensures old(current) != target || order == OldestFirst ==>
        valid == (old(valid) && if order == OldestFirst then target.AtMost(max) else min.AtMost(target))
      ensures !valid || !Contains(old(track.gaps), target) ==> current == target
      ensures valid && order == OldestFirst ==>
        target.AtMost(current) && OnlyGaps(track.gaps, order, min, max, target, current)
      ensures valid && order == NewestFirst && InRange(min, max, target) && GapsCloseGroups(track.gaps, min, max) ==>
        || (InRange(min, max, current) && OnlyGaps(track.gaps, order, min, max, target, current))
        || (current == end && OnlyGapsLeft(track.gaps, order, min, max, target))
      ensures valid && old(current) != target ==> current == end || !Contains(track.gaps, current)
      ensures forall x: Loc :: x == target || Before(order, x, old(current)) ==>
        (Contains(track.gaps, x) <==> Contains(old(track.gaps), x))
    {
      if current == target {
        return;
      }
      var ranges := GetGapRanges(current, target, order, min, max);
      GapRangesDisjoint(current, target, order, min, max);
      if InRange(min, max, current) && min.AtMost(target) && target.AtMost(max) {
        GapRangesExact(current, target, order, min, max);
      }
      forall x: Loc | x == target || Before(order, x, current) ensures !Contains(ranges, x) {
        GapRangesAhead(current, target, order, min, max, x);
      }
      track := InsertGaps(track, ranges);
      AdvanceTo(target);
    }
  }

  method InsertGaps(t0: Track, ranges: Intervals) returns (t: Track)
    requires TrackOk(t0)
    requires forall i :: 0 <= i < |ranges| ==> ranges[i].lo.AtMost(ranges[i].hi)
    ensures TrackOk(t) && t.groups == t0.groups && (IndexExact(t0) ==> IndexExact(t))
    ensures t == t0.(gaps := t.gaps, cached := t.cached)
    ensures forall x: Loc :: Contains(t.gaps, x) <==> Contains(t0.gaps, x) || Contains(ranges, x)
  {
    t := t0;
    var rest := ranges;
    while |rest| > 0
      invariant TrackOk(t) && t.groups == t0.groups && (IndexExact(t0) ==> IndexExact(t))
      invariant t == t0.(gaps := t.gaps, cached := t.cached)
      invariant forall i :: 0 <= i < |rest| ==> rest[i].lo.AtMost(rest[i].hi)
      invariant forall x: Loc ::
        Contains(t.gaps, x) || Contains(rest, x) <==> Contains(t0.gaps, x) || Contains(ranges, x)
    {
      t := InsertGap(t, rest[0].lo, rest[0].hi);
      rest := rest[1..];
    }
  }

  // ---- The objects of an upstream fetch, as they are written back ---------------------

  // Where an upstream fetch may leave the iterator that writes it back.
  ghost predicate Receiving(it: FetchRangeIterator)
    reads it
  {
    && it.Ok() && TrackOk(it.track) && it.valid
    && if it.order == OldestFirst then it.end == it.max && it.min.AtMost(it.current)
       else InRange(it.min, it.max, it.current) && it.end.group == it.min.group
  }

  /**
   * One received object: what was passed over on the way is marked, the object is not,
   * and oldest first the iterator goes on behind it.
   */
  method Receive(it: FetchRangeIterator, at: Loc)
    requires Receiving(it) && InRange(it.min, it.max, at) && !Contains(it.track.gaps, at)
    modifies it`track, it`current, it`valid
    ensures it.Ok() && TrackOk(it.track) && it.track.groups == old(it.track.groups)
    ensures forall x: Loc :: Contains(it.track.gaps, x) <==>
      Contains(old(it.track.gaps), x) || Visited(it.order, it.min, it.max, old(it.current), at, x)
    ensures it.order == OldestFirst ==> Receiving(it) && at.Less(it.current)
    ensures it.order == OldestFirst && StepExact(it.track, at, it.max) ==>
      forall x: Loc :: at.Less(x) && x.Less(it.current) ==> Contains(old(it.track.gaps), x)
    ensures it.order == NewestFirst && it.current.group == it.max.group != it.min.group ==> it.current.Less(it.max)
    ensures it.order == NewestFirst && AdvanceDescending(it.track, it.min, it.max, at).None? ==> it.current == at
  {
    it.MarkNonExistentTo(at);
    assert it.current == at;
    it.Next();
  }

  /**
   * Two objects received one after the other: the second makes no gap of the first if
   * the iterator went on from there, which oldest first it always does, and inside the
   * range only then.
   */
  method ReceiveTwo(it: FetchRangeIterator, a: Loc, b: Loc) returns (ghost between: Loc)
    requires Receiving(it) && InRange(it.min, it.max, a) && !Contains(it.track.gaps, a)
    requires it.order == NewestFirst ==> it.min.AtMost(b)
    modifies it`track, it`current, it`valid
    ensures it.order == OldestFirst ==> Before(it.order, a, between)
    ensures it.order == NewestFirst && AdvanceDescending(it.track, it.min, it.max, a).None? ==> between == a
    ensures Before(it.order, a, between) ==> !Contains(it.track.gaps, a)
    ensures InRange(it.min, it.max, between) && b.AtMost(it.max) && Before(it.order, a, b) ==>
      (Contains(it.track.gaps, a) <==> !Before(it.order, a, between))
  {
    Receive(it, a);
    between := it.current;
    it.MarkNonExistentTo(b);
  }

  // The objects come in order, and none is known to be absent.
  ghost predicate Receivable(gaps: Intervals, min: Loc, max: Loc, received: seq<Loc>) {
    && (forall i :: 0 <= i < |received| ==> InRange(min, max, received[i]) && !Contains(gaps, received[i]))
    && (forall i, j :: 0 <= i < j < |received| ==> received[i].Less(received[j]))
  }

  // The gaps once everything from `from` up to `to` is known: all of it but what was received.
  ghost predicate GapsBeside(gaps0: Intervals, gaps: Intervals, from: Loc, to: Loc, received: seq<Loc>) {
    forall x: Loc :: Contains(gaps, x) <==> Contains(gaps0, x) || (from.AtMost(x) && x.Less(to) && x !in received)
  }

  ghost predicate GroupsKnown(t: Track, max: Loc, received: seq<Loc>) {
    forall i :: 0 <= i < |received| ==> StepExact(t, received[i], max)
  }

  // One more object.
  lemma GapsGoOn(
    gaps0: Intervals, gaps1: Intervals, gaps: Intervals, max: Loc, from: Loc, at: Loc, next: Loc, received: seq<Loc>, k: nat
  )
    requires k < |received| && Receivable(gaps0, from, max, received)
    requires from.AtMost(at) && (k > 0 ==> received[k - 1].Less(at)) && received[k].Less(next)
    requires GapsBeside(gaps0, gaps1, from, at, received[..k]) && !Contains(gaps1, received[k])
    requires forall x: Loc :: Contains(gaps, x) <==>
      Contains(gaps1, x) || (at.AtMost(x) && x.Less(received[k]) && x.Less(max))
    requires forall x: Loc :: received[k].Less(x) && x.Less(next) ==> Contains(gaps1, x)
    ensures GapsBeside(gaps0, gaps, from, next, received[..k + 1])
  {
    var now := received[..k + 1];
    assert now == received[..k] + [received[k]];
    forall x: Loc ensures Contains(gaps, x) <==> Contains(gaps0, x) || (from.AtMost(x) && x.Less(next) && x !in now) {
      assert x in now <==> x in received[..k] || x == received[k];
      if x in received[..k] {
        var i :| 0 <= i < k && received[i] == x;
        assert x.Less(at) && x.Less(received[k]);
      }
    }
  }

  // Everything behind the last object.
  lemma GapsFilled(gaps0: Intervals, gaps1: Intervals, gaps: Intervals, max: Loc, from: Loc, at: Loc, received: seq<Loc>)
    requires from.AtMost(at) && at.AtMost(max) && GapsBeside(gaps0, gaps1, from, at, received)
    requires forall i :: 0 <= i < |received| ==> received[i].Less(at)
    requires forall x: Loc :: Contains(gaps, x) <==> Contains(gaps1, x) || (at.AtMost(x) && x.Less(max))
    ensures GapsBeside(gaps0, gaps, from, max, received)
  {
  }

  // The objects one after the other.
  method ReceiveEach(it: FetchRangeIterator, received: seq<Loc>)
    requires Receiving(it) && it.order == OldestFirst && Receivable(it.track.gaps, it.current, it.max, received)
    modifies it`track, it`current, it`valid
    ensures Receiving(it) && it.track.groups == old(it.track.groups) && old(it.current).AtMost(it.current)
    ensures forall i :: 0 <= i < |received| ==> !Contains(it.track.gaps, received[i]) && received[i].Less(it.current)
    ensures GroupsKnown(it.track, it.max, received) ==>
      GapsBeside(old(it.track.gaps), it.track.gaps, old(it.current), it.current, received)
  {
    ghost var gaps0, from := it.track.gaps, it.current;
    for k := 0 to |received|
      invariant Receiving(it) && it.track.groups == old(it.track.groups) && from.AtMost(it.current)
      invariant forall i :: 0 <= i < |received| ==> !Contains(it.track.gaps, received[i])
      invariant forall i :: 0 <= i < k ==> received[i].Less(it.current)
      invariant GroupsKnown(it.track, it.max, received) ==>
        GapsBeside(gaps0, it.track.gaps, from, it.current, received[..k])
    {
      ghost var gaps, at := it.track.gaps, it.current;
      Receive(it, received[k]);
      if GroupsKnown(it.track, it.max, received) {
        GapsGoOn(gaps0, gaps, it.track.gaps, it.max, from, at, it.current, received, k);
      }
    }
    assert received[..|received|] == received;
  }

  /**
   * A whole upstream fetch, oldest first: no received object ever becomes a gap, and
   * while the groups of the objects are known, exactly what was not received does.
   */
  method ReceiveAll(it: FetchRangeIterator, received: seq<Loc>)
    requires Receiving(it) && it.order == OldestFirst && Receivable(it.track.gaps, it.current, it.max, received)
    modifies it`track, it`current, it`valid
    ensures TrackOk(it.track) && it.track.groups == old(it.track.groups)
    ensures forall i :: 0 <= i < |received| ==> !Contains(it.track.gaps, received[i])
    ensures GroupsKnown(it.track, it.max, received) ==>
      GapsBeside(old(it.track.gaps), it.track.gaps, old(it.current), it.max, received)
  {
    ReceiveEach(it, received);
    ghost var gaps, at := it.track.gaps, it.current;
    it.MarkNonExistentTo(it.max);
    if GroupsKnown(it.track, it.max, received) {
      GapsFilled(old(it.track.gaps), gaps, it.track.gaps, it.max, old(it.current), at, received);
    }
  }
}
