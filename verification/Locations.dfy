/**
 * Object locations of a track.
 *
 * A location is a (group, object) pair ordered lexicographically. Both
 * identifiers are bounded, so stepping past the largest one is an explicit case.
 */
module Locations {
  import opened Common

  // The largest identifier: a 62-bit variable-length integer.
  const MAX_ID: nat := 0x3FFF_FFFF_FFFF_FFFF

  type Id = x: int | 0 <= x <= MAX_ID

  datatype Loc = Loc(group: Id, obj: Id) {
    predicate Less(that: Loc) {
      group < that.group || (group == that.group && obj < that.obj)
    }

    predicate AtMost(that: Loc) {
      this == that || Less(that)
    }

    function Next(): Option<Loc> {
      if obj < MAX_ID then Some(Loc(group, obj + 1)) else NextGroup()
    }

    function Prev(): Option<Loc> {
      if obj > 0 then Some(Loc(group, obj - 1)) else PrevGroupEnd()
    }

    function PrevInGroup(): Option<Loc> {
      if obj > 0 then Some(Loc(group, obj - 1)) else None
    }

    function NextGroup(): Option<Loc> {
      if group < MAX_ID then Some(Loc(group + 1, 0)) else None
    }

    function PrevGroup(): Option<Loc> {
      if group > 0 then Some(Loc(group - 1, 0)) else None
    }

    function PrevGroupEnd(): Option<Loc> {
      if group > 0 then Some(Loc(group - 1, MAX_ID)) else None
    }
  }

  const MAX_LOC := Loc(MAX_ID, MAX_ID)

  function MinLoc(a: Loc, b: Loc): Loc {
    if a.Less(b) then a else b
  }

  function MaxLoc(a: Loc, b: Loc): Loc {
    if a.Less(b) then b else a
  }
}

/**
 * A set of locations held as a list of closed intervals: sorted, disjoint and
 * never adjacent, so every interval is a maximal run of the set.
 */
module IntervalSets {
  import opened Common
  import opened Locations

  // Both ends belong to the interval.
  datatype Interval = Interval(lo: Loc, hi: Loc) {
    predicate Holds(x: Loc) {
      lo.AtMost(x) && x.AtMost(hi)
    }
  }

  type Intervals = seq<Interval>

  // At least one location lies strictly between a and b.
  predicate Apart(a: Loc, b: Loc) {
    a.Next().Some? && a.Next().value.Less(b)
  }

  lemma PrevThenNext(a: Loc)
    requires a.Prev().Some?
    ensures a.Prev().value.Less(a) && a.Prev().value.Next() == Some(a)
  {
  }

  lemma ApartBelow(a: Loc, b: Loc, y: Loc)
    requires a.AtMost(b) && Apart(b, y)
    ensures Apart(a, y)
  {
  }

  ghost predicate Valid(s: Intervals) {
    && (forall i :: 0 <= i < |s| ==> s[i].lo.AtMost(s[i].hi))
    && (forall i, j :: 0 <= i < j < |s| ==> Apart(s[i].hi, s[j].lo))
  }

  predicate Contains(s: Intervals, x: Loc) {
    |s| > 0 && (s[0].Holds(x) || Contains(s[1..], x))
  }

  lemma {:induction false} ContainsAt(s: Intervals, x: Loc)
    ensures Contains(s, x) <==> exists i :: 0 <= i < |s| && s[i].Holds(x)
  {
    if |s| > 0 {
      ContainsAt(s[1..], x);
      if i :| 0 <= i < |s| && s[i].Holds(x) && i > 0 {
        assert s[1..][i - 1].Holds(x);
      }
    }
  }

  // A non-empty set is its first interval followed, further up, by the rest.
  lemma {:induction false} Unfolded(s: Intervals)
    requires Valid(s) && |s| > 0
    ensures Valid(s[1..])
    ensures forall y: Loc :: Contains(s[1..], y) ==> Apart(s[0].hi, y)
  {
    if |s| > 1 {
      Unfolded(s[1..]);
    }
  }

  lemma {:induction false} Prepended(v: Interval, s: Intervals)
    requires v.lo.AtMost(v.hi) && Valid(s)
    requires forall y: Loc :: Contains(s, y) ==> Apart(v.hi, y)
    ensures Valid([v] + s)
    ensures forall x: Loc :: Contains([v] + s, x) <==> v.Holds(x) || Contains(s, x)
  {
    assert ([v] + s)[1..] == s;
    forall j | 0 <= j < |s| ensures Apart(v.hi, s[j].lo) {
      EndsContained(s, j);
    }
  }

  lemma {:induction false} EndsContained(s: Intervals, j: nat)
    requires Valid(s) && j < |s|
    ensures Contains(s, s[j].lo) && Contains(s, s[j].hi)
  {
    if j > 0 {
      EndsContained(s[1..], j - 1);
    }
  }

  // The interval of the set around x.
  function FindInterval(s: Intervals, x: Loc): (r: Option<Interval>)
    requires Valid(s)
    ensures r.Some? <==> Contains(s, x)
    ensures r.Some? ==> r.value.Holds(x)
  {
    if |s| == 0 then None
    else if s[0].Holds(x) then Some(s[0])
    else FindInterval(s[1..], x)
  }

  // It is a maximal run: wholly in the set, with both outer neighbours outside.
  lemma {:induction false} FoundIsMaximal(s: Intervals, x: Loc)
    requires Valid(s) && Contains(s, x)
    ensures var v := FindInterval(s, x).value;
      && (forall y: Loc :: v.Holds(y) ==> Contains(s, y))
      && (v.lo.Prev().Some? ==> !Contains(s, v.lo.Prev().value))
      && (v.hi.Next().Some? ==> !Contains(s, v.hi.Next().value))
  {
    Unfolded(s);
    if !s[0].Holds(x) {
      FoundIsMaximal(s[1..], x);
      var v := FindInterval(s, x).value;
      assert v.Holds(v.lo) && v.Holds(v.hi);
    }
  }

  // The first interval that starts after x.
  function FindNextInterval(s: Intervals, x: Loc): (r: Option<Interval>)
    requires Valid(s)
    ensures r.Some? ==> x.Less(r.value.lo) && Contains(s, r.value.lo)
    ensures !Contains(s, x) ==>
      forall y: Loc :: x.Less(y) && (r.Some? ==> y.Less(r.value.lo)) ==> !Contains(s, y)
  {
    if |s| == 0 then None
    else if x.Less(s[0].lo) then
      Unfolded(s);
      Some(s[0])
    else FindNextInterval(s[1..], x)
  }

  // The last interval that ends before x.
  function FindPrevInterval(s: Intervals, x: Loc): (r: Option<Interval>)
    requires Valid(s)
    ensures r.Some? ==> r.value.hi.Less(x) && Contains(s, r.value.hi)
    ensures !Contains(s, x) ==>
      forall y: Loc :: y.Less(x) && (r.Some? ==> r.value.hi.Less(y)) ==> !Contains(s, y)
  {
    if |s| == 0 then
      None
    else if !s[0].hi.Less(x) then
      Unfolded(s);
      None
    else
      var later := FindPrevInterval(s[1..], x);
      if later.Some? then later else Some(s[0])
  }

  // Adds the closed interval [lo, hi], merging whatever it touches.
  function Insert(s: Intervals, lo: Loc, hi: Loc): (r: Intervals)
    requires Valid(s) && lo.AtMost(hi)
    ensures Valid(r)
    ensures forall x: Loc :: Contains(r, x) <==> Contains(s, x) || Interval(lo, hi).Holds(x)
  {
    if |s| == 0 then
      Prepended(Interval(lo, hi), []);
      [Interval(lo, hi)]
    else if Apart(s[0].hi, lo) then
      Unfolded(s);
      Prepended(s[0], Insert(s[1..], lo, hi));
      [s[0]] + Insert(s[1..], lo, hi)
    else if Apart(hi, s[0].lo) then
      Unfolded(s);
      Prepended(Interval(lo, hi), s);
      [Interval(lo, hi)] + s
    else
      Unfolded(s);
      Insert(s[1..], MinLoc(lo, s[0].lo), MaxLoc(hi, s[0].hi))
  }

  // Takes the closed interval [lo, hi] out, splitting whatever straddles an end.
  function Remove(s: Intervals, lo: Loc, hi: Loc): (r: Intervals)
    requires Valid(s) && lo.AtMost(hi)
    ensures Valid(r)
    ensures forall x: Loc :: Contains(r, x) <==> Contains(s, x) && !Interval(lo, hi).Holds(x)
  {
    if |s| == 0 then []
    else
      Unfolded(s);
      KeepBelow(s[0], lo, KeepAbove(s[0], hi, Remove(s[1..], lo, hi)))
  }

  // Puts the part of v above hi in front of s.
  function KeepAbove(v: Interval, hi: Loc, s: Intervals): (r: Intervals)
    requires v.lo.AtMost(v.hi) && Valid(s)
    requires forall y: Loc :: Contains(s, y) ==> Apart(v.hi, y)
    ensures Valid(r)
    ensures forall x: Loc :: Contains(r, x) <==> Contains(s, x) || (v.Holds(x) && hi.Less(x))
  {
    if hi.Less(v.hi) then
      var above := Interval(MaxLoc(v.lo, hi.Next().value), v.hi);
      Prepended(above, s);
      [above] + s
    else s
  }

  lemma BelowIsApart(v: Interval, lo: Loc, s: Intervals)
    requires v.lo.AtMost(v.hi) && v.lo.Less(lo)
    requires forall y: Loc :: Contains(s, y) ==> (v.Holds(y) && lo.Less(y)) || Apart(v.hi, y)
    ensures forall y: Loc :: Contains(s, y) ==> Apart(MinLoc(v.hi, lo.Prev().value), y)
  {
    PrevThenNext(lo);
    forall y: Loc | Contains(s, y) ensures Apart(MinLoc(v.hi, lo.Prev().value), y) {
      if Apart(v.hi, y) {
        ApartBelow(MinLoc(v.hi, lo.Prev().value), v.hi, y);
      }
    }
  }

  // Puts the part of v below lo in front of s.
  function KeepBelow(v: Interval, lo: Loc, s: Intervals): (r: Intervals)
    requires v.lo.AtMost(v.hi) && Valid(s)
    requires forall y: Loc :: Contains(s, y) ==> (v.Holds(y) && lo.Less(y)) || Apart(v.hi, y)
    ensures Valid(r)
    ensures forall x: Loc :: Contains(r, x) <==> Contains(s, x) || (v.Holds(x) && x.Less(lo))
  {
    if v.lo.Less(lo) then
      var below := Interval(v.lo, MinLoc(v.hi, lo.Prev().value));
      BelowIsApart(v, lo, s);
      Prepended(below, s);
      [below] + s
    else s
  }
}
