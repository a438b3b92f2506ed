/**
 * One cached track: its groups of objects, its known gaps and the combined
 * index of cached content.
 */
module CacheTracks {
  import opened Common
  import opened Locations
  import opened IntervalSets

  // Cap on the scans that look for cached objects inside a declared gap.
  const MAX_GAP_VALIDATION: nat := 100

  datatype Status = Normal | EndOfGroup | EndOfTrack

  datatype Entry = Entry(
    subgroup: nat, status: Status, hasPayload: bool, size: nat,
    complete: bool, datagram: bool, cachedAt: nat)

  // `evictable` stands for the two list iterators a group holds while it is in
  // the per-track and the global eviction lists.
  datatype Group = Group(
    objects: map<Id, Entry>, maxCached: Id, ended: bool,
    seenGroupGap: Option<nat>, totalBytes: nat, evictable: bool)

  datatype Track = Track(
    groups: map<Id, Group>, gaps: Intervals, cached: Intervals,
    endOfTrack: bool, largest: Option<Loc>, maxAge: Option<nat>,
    writers: nat, fetches: nat, groupLru: seq<Id>)

  datatype Failure =
    | ObjectInKnownGap | GroupGapTooLarge | GroupGapInconsistent | GroupGapCoversObject
    | ObjectGapTooLarge | ObjectGapCoversObject
    | MalformedTrack | StatusChange | PayloadMismatch | PreferenceMismatch

  datatype Outcome = Stored | Rejected(why: Failure)

  // The extension values an object may carry about missing predecessors.
  datatype GapExtensions = GapExtensions(priorGroups: Option<nat>, priorObjects: Option<nat>)

  const EMPTY_TRACK := Track(map[], [], [], false, None, None, 0, 0, [])

  ghost function Sizes(objects: map<Id, Entry>): map<Id, nat> {
    map o | o in objects :: objects[o].size
  }

  ghost predicate GroupOk(g: Group) {
    && (forall o :: o in g.objects ==> o <= g.maxCached)
    && g.totalBytes == Sum(Sizes(g.objects))
  }

  predicate HasObject(t: Track, x: Loc) {
    x.group in t.groups && x.obj in t.groups[x.group].objects
  }

  predicate HasComplete(t: Track, x: Loc) {
    HasObject(t, x) && t.groups[x.group].objects[x.obj].complete
  }

  /** The track invariant kept by writes, gap insertions, expiries and evictions. */
  ghost predicate TrackOk(t: Track) {
    && IntervalSets.Valid(t.gaps)
    && IntervalSets.Valid(t.cached)
    && (forall g :: g in t.groups ==> GroupOk(t.groups[g]))
    && (forall x: Loc :: HasComplete(t, x) ==> Contains(t.cached, x))
    && (forall g, x: Loc :: g in t.groups && t.groups[g].ended && x.group == g && x.obj > t.groups[g].maxCached
          ==> Contains(t.gaps, x))
  }

  // No location is indexed as cached content unless it is a gap or a complete object.
  ghost predicate IndexExact(t: Track) {
    forall x: Loc :: Contains(t.cached, x) ==> Contains(t.gaps, x) || HasComplete(t, x)
  }

  // The same of every location but one.
  ghost predicate IndexExactBut(t: Track, at: Loc) {
    forall x: Loc :: x != at && Contains(t.cached, x) ==> Contains(t.gaps, x) || HasComplete(t, x)
  }

  // ---- Gaps ---------------------------------------------------------------

  function InsertGap(t: Track, lo: Loc, hi: Loc): (r: Track)
    requires TrackOk(t) && lo.AtMost(hi)
    ensures TrackOk(r) && r.groups == t.groups
    ensures IndexExact(t) ==> IndexExact(r)
    ensures forall x: Loc :: Contains(r.gaps, x) <==> Contains(t.gaps, x) || Interval(lo, hi).Holds(x)
    ensures forall x: Loc :: Contains(r.cached, x) <==> Contains(t.cached, x) || Interval(lo, hi).Holds(x)
  {
    var r := t.(gaps := Insert(t.gaps, lo, hi), cached := Insert(t.cached, lo, hi));
    assert forall x: Loc :: HasComplete(r, x) == HasComplete(t, x);
    r
  }

  function Capped(n: nat): nat {
    if n < MAX_GAP_VALIDATION then n else MAX_GAP_VALIDATION
  }

  // A cached object sits in a group that a prior-group gap of n covers, close enough to be looked at.
  ghost predicate GroupGapConflict(t: Track, at: Loc, n: nat)
    requires n <= at.group
  {
    exists g: Id :: at.group - n <= g < at.group <= g + MAX_GAP_VALIDATION && g in t.groups && t.groups[g].objects != map[]
  }

  // A cached object is among those that a prior-object gap of n covers, close enough to be looked at.
  ghost predicate ObjectGapConflict(t: Track, at: Loc, n: nat)
    requires n <= at.obj && at.group in t.groups
  {
    exists o: Id :: at.obj - n <= o < at.obj <= o + MAX_GAP_VALIDATION && o in t.groups[at.group].objects
  }

  ghost predicate GroupGapAccepted(t: Track, at: Loc, ext: GapExtensions)
    requires at.group in t.groups
  {
    match ext.priorGroups
    case None => true
    case Some(n) =>
      && n <= at.group
      && match t.groups[at.group].seenGroupGap
         case Some(seen) => seen == n
         case None => !GroupGapConflict(t, at, n)
  }

  ghost predicate ObjectGapAccepted(t: Track, at: Loc, ext: GapExtensions)
    requires at.group in t.groups
  {
    match ext.priorObjects
    case None => true
    case Some(n) => n <= at.obj && !ObjectGapConflict(t, at, n)
  }

  // The locations that accepted extensions newly declare absent.
  predicate DeclaredByExtensions(t: Track, at: Loc, ext: GapExtensions, x: Loc)
    requires at.group in t.groups
  {
    || (ext.priorGroups.Some? && t.groups[at.group].seenGroupGap.None?
        && at.group - ext.priorGroups.value <= x.group < at.group)
    || (ext.priorObjects.Some? && x.group == at.group
        && at.obj - ext.priorObjects.value <= x.obj < at.obj)
  }

  // The locations that an end-of-group or end-of-track status declares absent.
  predicate DeclaredByStatus(at: Loc, status: Status, x: Loc) {
    || (status != Normal && x.group == at.group && x.obj > at.obj)
    || (status == EndOfTrack && x.group > at.group)
  }

  // The two tracks hold the same objects, byte counts and eviction state.
  ghost predicate SameObjects(a: Track, b: Track) {
    && a.groups.Keys == b.groups.Keys
    && (forall g :: g in a.groups ==>
          && b.groups[g].objects == a.groups[g].objects
          && b.groups[g].maxCached == a.groups[g].maxCached
          && b.groups[g].totalBytes == a.groups[g].totalBytes
          && b.groups[g].evictable == a.groups[g].evictable)
    && a.endOfTrack == b.endOfTrack && a.largest == b.largest && a.maxAge == b.maxAge
    && a.writers == b.writers && a.fetches == b.fetches && a.groupLru == b.groupLru
  }

  lemma SameObjectsSameIndex(a: Track, b: Track)
    requires SameObjects(a, b)
    ensures forall x: Loc :: HasComplete(a, x) <==> HasComplete(b, x)
    ensures forall g :: g in a.groups ==> (GroupOk(a.groups[g]) <==> GroupOk(b.groups[g]))
  {
  }

  method ProcessGapExtensions(t0: Track, at: Loc, ext: GapExtensions) returns (t: Track, r: Outcome)
    requires TrackOk(t0) && at.group in t0.groups
    ensures TrackOk(t) && (IndexExact(t0) ==> IndexExact(t))
    ensures SameObjects(t0, t)
    ensures forall g :: g in t.groups ==> t.groups[g].ended == t0.groups[g].ended
    ensures r.Stored? <==> GroupGapAccepted(t0, at, ext) && ObjectGapAccepted(t0, at, ext)
    ensures SeenAfter(t0, t, at.group, SeenGap(t0.groups[at.group], at, ext.priorGroups))
    ensures forall x: Loc :: Contains(t.gaps, x) ==>
      Contains(t0.gaps, x) || DeclaredByExtensions(t0, at, ext, x)
    ensures forall x: Loc :: Contains(t0.gaps, x) ==> Contains(t.gaps, x)
    ensures r.Stored? ==> forall x: Loc :: DeclaredByExtensions(t0, at, ext, x) ==> Contains(t.gaps, x)
  {
    t, r := ProcessGroupGap(t0, at, ext.priorGroups);
    SameObjectsSameIndex(t0, t);
    if r.Rejected? || ext.priorObjects.None? {
      return;
    }
    var n := ext.priorObjects.value;
    if n > at.obj {
      r := Rejected(ObjectGapTooLarge);
      return;
    }
    if n > 0 {
      var group := t.groups[at.group];
      for o := at.obj - Capped(n) to at.obj
        invariant forall p: Id :: at.obj - Capped(n) <= p < o ==> p !in group.objects
      {
        if o in group.objects {
          r := Rejected(ObjectGapCoversObject);
          return;
        }
      }
      t := InsertGap(t, Loc(at.group, at.obj - n), Loc(at.group, at.obj - 1));
    }
  }

  // The group remembers its prior-group gap, the others theirs.
  ghost predicate SeenAfter(t0: Track, t: Track, g: Id, seen: Option<nat>) {
    forall h :: h in t0.groups && h in t.groups ==>
      t.groups[h].seenGroupGap == if h == g then seen else t0.groups[h].seenGroupGap
  }

  // The first prior-group gap that does not exceed the group number stays.
  function SeenGap(g: Group, at: Loc, prior: Option<nat>): Option<nat> {
    if g.seenGroupGap.Some? || prior.None? || prior.value > at.group then g.seenGroupGap else prior
  }

  function RecordGroupGap(t: Track, g: Id, n: nat): (r: Track)
    requires TrackOk(t) && g in t.groups
    ensures TrackOk(r) && SameObjects(t, r)
    ensures IndexExact(t) ==> IndexExact(r)
    ensures r.gaps == t.gaps && SeenAfter(t, r, g, Some(n))
    ensures forall h :: h in t.groups ==> r.groups[h].ended == t.groups[h].ended
  {
    var r := t.(groups := t.groups[g := t.groups[g].(seenGroupGap := Some(n))]);
    SameObjectsSameIndex(t, r);
    r
  }

  method ProcessGroupGap(t0: Track, at: Loc, prior: Option<nat>) returns (t: Track, r: Outcome)
    requires TrackOk(t0) && at.group in t0.groups
    ensures TrackOk(t) && (IndexExact(t0) ==> IndexExact(t))
    ensures SameObjects(t0, t)
    ensures forall g :: g in t.groups ==> t.groups[g].ended == t0.groups[g].ended
    ensures r.Stored? <==> GroupGapAccepted(t0, at, GapExtensions(prior, None))
    ensures SeenAfter(t0, t, at.group, SeenGap(t0.groups[at.group], at, prior))
    ensures forall x: Loc :: Contains(t.gaps, x) <==>
      Contains(t0.gaps, x) || (r.Stored? && DeclaredByExtensions(t0, at, GapExtensions(prior, None), x))
  {
    t, r := t0, Stored;
    if prior.None? {
      return;
    }
    var n := prior.value;
    var group := t.groups[at.group];
    if n > at.group {
      r := Rejected(GroupGapTooLarge);
    } else if group.seenGroupGap.Some? {
      r := if group.seenGroupGap.value == n then Stored else Rejected(GroupGapInconsistent);
    } else {
      t := RecordGroupGap(t0, at.group, n);
      if n > 0 {
        for g := at.group - Capped(n) to at.group
          invariant forall p: Id :: at.group - Capped(n) <= p < g && p in t0.groups ==> t0.groups[p].objects == map[]
        {
          if g in t.groups && t.groups[g].objects != map[] {
            r := Rejected(GroupGapCoversObject);
            return;
          }
        }
        t := InsertGap(t, Loc(at.group - n, 0), Loc(at.group - 1, MAX_ID));
      }
    }
  }

  // ---- Writing an object ----------------------------------------------------

  // What a repeated write must agree with.
  predicate Consistent(e: Entry, status: Status, payload: Option<nat>, datagram: bool) {
    && e.status == status
    && (status == Normal && e.complete ==>
          e.hasPayload == payload.Some? && (payload.Some? ==> payload.value == e.size))
    && e.datagram == datagram
  }

  // The location is not a known gap and the extensions are consistent with the cache.
  ghost predicate GapsAccepted(t: Track, at: Loc, ext: GapExtensions)
    requires at.group in t.groups
  {
    !Contains(t.gaps, at) && GroupGapAccepted(t, at, ext) && ObjectGapAccepted(t, at, ext)
  }

  ghost predicate Acceptable(t: Track, at: Loc, status: Status, ext: GapExtensions, payload: Option<nat>, datagram: bool)
    requires at.group in t.groups
  {
    && GapsAccepted(t, at, ext)
    && (at.obj in t.groups[at.group].objects ==>
          Consistent(t.groups[at.group].objects[at.obj], status, payload, datagram))
  }

  // Stores e as object o: bytes and high-water mark.
  function PutObject(g: Group, o: Id, e: Entry): (r: Group)
    requires GroupOk(g)
    ensures GroupOk(r)
    ensures r == g.(objects := g.objects[o := e], totalBytes := r.totalBytes, maxCached := r.maxCached)
    ensures r.maxCached >= g.maxCached && (r.maxCached == g.maxCached || r.maxCached == o)
  {
    PutObjectBytes(g, o, e);
    g.(objects := g.objects[o := e],
       totalBytes := g.totalBytes - SizeOf(g, o) + e.size,
       maxCached := if o >= g.maxCached then o else g.maxCached)
  }

  function SizeOf(g: Group, o: Id): nat {
    if o in g.objects then g.objects[o].size else 0
  }

  lemma PutObjectBytes(g: Group, o: Id, e: Entry)
    requires GroupOk(g)
    ensures SizeOf(g, o) <= g.totalBytes
    ensures Sum(Sizes(g.objects[o := e])) == g.totalBytes - SizeOf(g, o) + e.size
  {
    SumPut(Sizes(g.objects), o, e.size);
    assert Sizes(g.objects[o := e]) == Sizes(g.objects)[o := e.size];
  }

  ghost predicate EndedAfter(t: Track, at: Loc) {
    forall x: Loc :: x.group == at.group && x.obj > at.obj ==> Contains(t.gaps, x)
  }

  // The track with e stored as the object at `at`; the index is not touched.
  function Written(t: Track, at: Loc, e: Entry, ends: bool): Track
    requires at.group in t.groups && GroupOk(t.groups[at.group])
  {
    var group := PutObject(t.groups[at.group], at.obj, e);
    t.(groups := t.groups[at.group := group.(ended := group.ended || ends)])
  }

  function Indexed(t: Track, at: Loc): Track
    requires IntervalSets.Valid(t.cached)
  {
    t.(cached := Insert(t.cached, at, at))
  }

  lemma WrittenObjects(t: Track, at: Loc, e: Entry, ends: bool, x: Loc)
    requires at.group in t.groups && GroupOk(t.groups[at.group])
    ensures HasComplete(Written(t, at, e, ends), x) <==> if x == at then e.complete else HasComplete(t, x)
  {
  }

  lemma WrittenKeepsTrackOk(t: Track, at: Loc, e: Entry, ends: bool)
    requires TrackOk(t) && at.group in t.groups
    requires ends ==> EndedAfter(t, at)
    requires e.complete ==> Contains(t.cached, at)
    ensures TrackOk(Written(t, at, e, ends))
  {
    forall x: Loc ensures HasComplete(Written(t, at, e, ends), x) ==> Contains(t.cached, x) {
      WrittenObjects(t, at, e, ends, x);
    }
  }

  lemma IndexedKeepsTrackOk(t: Track, at: Loc)
    requires TrackOk(t)
    ensures TrackOk(Indexed(t, at))
  {
    assert forall x: Loc :: HasComplete(Indexed(t, at), x) == HasComplete(t, x);
  }

  function PutEntry(t: Track, at: Loc, e: Entry, ends: bool): (r: Track)
    requires TrackOk(t) && at.group in t.groups
    requires ends ==> EndedAfter(t, at)
    ensures TrackOk(r) && r.gaps == t.gaps
  {
    IndexedKeepsTrackOk(t, at);
    var t1 := if e.complete then Indexed(t, at) else t;
    WrittenKeepsTrackOk(t1, at, e, ends);
    Written(t1, at, e, ends)
  }

  // What a stored entry changes in the index and among the complete objects.
  lemma PutEntryAt(t: Track, at: Loc, e: Entry, ends: bool, x: Loc)
    requires TrackOk(t) && at.group in t.groups && (ends ==> EndedAfter(t, at))
    ensures var r := PutEntry(t, at, e, ends);
      && (HasComplete(r, x) <==> if x == at then e.complete else HasComplete(t, x))
      && (Contains(r.cached, x) <==> Contains(t.cached, x) || (e.complete && x == at))
  {
    IndexedKeepsTrackOk(t, at);
    WrittenObjects(if e.complete then Indexed(t, at) else t, at, e, ends, x);
  }

  // The index stays exact unless an incomplete object replaces a complete one.
  lemma WrittenIndexExact(t: Track, at: Loc, e: Entry, ends: bool)
    requires TrackOk(t) && at.group in t.groups && IndexExact(t)
    requires !Contains(t.gaps, at) && (ends ==> EndedAfter(t, at))
    ensures IndexExact(PutEntry(t, at, e, ends)) <==> e.complete || !HasComplete(t, at)
    ensures IndexExactBut(PutEntry(t, at, e, ends), at)
  {
    var r := PutEntry(t, at, e, ends);
    PutEntryAt(t, at, e, ends, at);
    forall x: Loc | x != at && Contains(r.cached, x) ensures Contains(r.gaps, x) || HasComplete(r, x) {
      PutEntryAt(t, at, e, ends, x);
    }
    if e.complete || !HasComplete(t, at) {
      forall x: Loc | Contains(r.cached, x) ensures Contains(r.gaps, x) || HasComplete(r, x) {
        PutEntryAt(t, at, e, ends, x);
      }
    }
  }

  // Exactly one group may have become ended.
  ghost predicate EndedIn(t0: Track, t: Track, g: Id, ends: bool) {
    forall h :: h in t0.groups && h in t.groups ==> t.groups[h].ended == (t0.groups[h].ended || (h == g && ends))
  }

  // Marks the group of a rejected end-of-group write ended: the object is there already.
  function MarkEnded(t: Track, at: Loc): (r: Track)
    requires TrackOk(t) && HasObject(t, at)
    requires EndedAfter(t, at)
    ensures TrackOk(r) && SameObjects(t, r) && r.gaps == t.gaps && r.cached == t.cached
    ensures EndedIn(t, r, at.group, true) && SeenAfter(t, r, at.group, t.groups[at.group].seenGroupGap)
  {
    var r := t.(groups := t.groups[at.group := t.groups[at.group].(ended := true)]);
    SameObjectsSameIndex(t, r);
    r
  }

  // Records what an end-of-group or end-of-track status says about later locations.
  function InsertStatusGaps(t: Track, at: Loc, status: Status): (r: Track)
    requires TrackOk(t)
    ensures TrackOk(r) && r == t.(gaps := r.gaps, cached := r.cached)
    ensures IndexExact(t) ==> IndexExact(r)
    ensures forall x: Loc :: Contains(r.gaps, x) <==> Contains(t.gaps, x) || DeclaredByStatus(at, status, x)
  {
    if status == Normal then t
    else
      var t1 := if at.obj < MAX_ID then InsertGap(t, Loc(at.group, at.obj + 1), Loc(at.group, MAX_ID)) else t;
      if status == EndOfTrack && at.group < MAX_ID then InsertGap(t1, Loc(at.group + 1, 0), MAX_LOC) else t1
  }

  // The entry a write leaves behind: a repeated write keeps the subgroup of the first.
  function EntryFor(
    g: Group, o: Id, subgroup: nat, status: Status, payload: Option<nat>, complete: bool, datagram: bool, now: nat
  ): Entry {
    Entry(if o in g.objects then g.objects[o].subgroup else subgroup, status, payload.Some?,
          if payload.Some? then payload.value else 0, complete, datagram, now)
  }

  // The entry is that of the write: what was sent, as long as it was, at the time it came.
  ghost predicate HoldsWrite(
    g0: Group, e: Entry, o: Id, subgroup: nat, status: Status, payload: Option<nat>, complete: bool, datagram: bool, now: nat
  ) {
    && e.status == status && e.complete == complete && e.datagram == datagram && e.cachedAt == now
    && (if payload.Some? then e.hasPayload && e.size == payload.value else !e.hasPayload && e.size == 0)
    && e.subgroup == (if o in g0.objects then g0.objects[o].subgroup else subgroup)
  }

  lemma PutEntryFlags(t: Track, at: Loc, e: Entry, ends: bool)
    requires TrackOk(t) && at.group in t.groups && (ends ==> EndedAfter(t, at))
    ensures EndedIn(t, PutEntry(t, at, e, ends), at.group, ends)
    ensures SeenAfter(t, PutEntry(t, at, e, ends), at.group, t.groups[at.group].seenGroupGap)
  {
  }

  // The last part of a write, once its gaps are recorded.
  method StoreObject(
    t0: Track, at: Loc, subgroup: nat, status: Status, payload: Option<nat>, complete: bool, datagram: bool, now: nat
  ) returns (t: Track, r: Outcome)
    requires TrackOk(t0) && at.group in t0.groups && !Contains(t0.gaps, at)
    requires status != Normal ==> EndedAfter(t0, at)
    ensures TrackOk(t) && t.gaps == t0.gaps
    ensures var g := t0.groups[at.group];
      r.Stored? <==> (at.obj in g.objects ==> Consistent(g.objects[at.obj], status, payload, datagram))
    ensures r.Rejected? ==> SameObjects(t0, t) && t.cached == t0.cached
    ensures EndedIn(t0, t, at.group, status != Normal) && SeenAfter(t0, t, at.group, t0.groups[at.group].seenGroupGap)
    ensures r.Stored? ==>
      var e := EntryFor(t0.groups[at.group], at.obj, subgroup, status, payload, complete, datagram, now);
      t == PutEntry(t0, at, e, status != Normal)
  {
    PutEntryFlags(
      t0, at, EntryFor(t0.groups[at.group], at.obj, subgroup, status, payload, complete, datagram, now), status != Normal);
    t, r := t0, Stored;
    var group := t.groups[at.group];
    var size := if payload.Some? then payload.value else 0;
    if at.obj in group.objects {
      var prior := group.objects[at.obj];
      if status != prior.status {
        r := Rejected(StatusChange);
      } else if status == Normal && prior.complete
                && (payload.Some? != prior.hasPayload || (payload.Some? && size != prior.size)) {
        r := Rejected(PayloadMismatch);
      } else if prior.datagram != datagram {
        r := Rejected(PreferenceMismatch);
      }
      if r.Rejected? {
        if status != Normal {
          t := MarkEnded(t, at);
        }
        return;
      }
      t := PutEntry(t, at, prior.(hasPayload := payload.Some?, size := size, complete := complete, cachedAt := now),
                    status != Normal);
    } else {
      t := PutEntry(t, at, Entry(subgroup, status, payload.Some?, size, complete, datagram, now), status != Normal);
    }
  }

  // Every location a write declares absent, by its extensions or its status.
  predicate DeclaredAbsent(t: Track, at: Loc, status: Status, ext: GapExtensions, x: Loc)
    requires at.group in t.groups
  {
    DeclaredByExtensions(t, at, ext, x) || DeclaredByStatus(at, status, x)
  }

  // The gaps grow by everything the write declares absent; of a write rejected for its
  // extensions, by no more than some of what these declare.
  ghost predicate GapsDeclared(t0: Track, gaps: Intervals, at: Loc, status: Status, ext: GapExtensions, accepted: bool)
    requires at.group in t0.groups
  {
    && (forall x: Loc :: Contains(t0.gaps, x) ==> Contains(gaps, x))
    && (forall x: Loc :: Contains(gaps, x) ==>
          Contains(t0.gaps, x) || if accepted then DeclaredAbsent(t0, at, status, ext, x) else DeclaredByExtensions(t0, at, ext, x))
    && (accepted ==> forall x: Loc :: DeclaredAbsent(t0, at, status, ext, x) ==> Contains(gaps, x))
  }

  method DeclareGaps(t0: Track, at: Loc, status: Status, ext: GapExtensions) returns (t: Track, r: Outcome)
    requires TrackOk(t0) && at.group in t0.groups
    ensures TrackOk(t) && (IndexExact(t0) ==> IndexExact(t)) && SameObjects(t0, t) && EndedIn(t0, t, at.group, false)
    ensures r.Stored? <==> GroupGapAccepted(t0, at, ext) && ObjectGapAccepted(t0, at, ext)
    ensures SeenAfter(t0, t, at.group, SeenGap(t0.groups[at.group], at, ext.priorGroups))
    ensures GapsDeclared(t0, t.gaps, at, status, ext, r.Stored?)
  {
    t, r := ProcessGapExtensions(t0, at, ext);
    if r.Stored? {
      t := InsertStatusGaps(t, at, status);
    }
  }

  lemma PutEntryOver(t0: Track, t1: Track, at: Loc, e: Entry, ends: bool)
    requires TrackOk(t0) && TrackOk(t1) && SameObjects(t0, t1) && at.group in t0.groups
    requires ends ==> EndedAfter(t1, at)
    ensures SameObjects(Written(t0, at, e, false), PutEntry(t1, at, e, ends))
  {
  }

  // What a stored write leaves in the groups.
  ghost predicate WriteStored(
    t0: Track, t: Track, at: Loc, subgroup: nat, status: Status, payload: Option<nat>, complete: bool, datagram: bool, now: nat
  )
    requires at.group in t0.groups
  {
    && t.groups.Keys == t0.groups.Keys && at.obj in t.groups[at.group].objects
    && var g0, g := t0.groups[at.group], t.groups[at.group];
    && g.objects == g0.objects[at.obj := g.objects[at.obj]]
    && HoldsWrite(g0, g.objects[at.obj], at.obj, subgroup, status, payload, complete, datagram, now)
    && g.maxCached == (if g0.maxCached < at.obj then at.obj else g0.maxCached)
    && forall h :: h in t0.groups && h != at.group ==> t.groups[h].objects == t0.groups[h].objects
  }

  lemma WrittenIsStored(
    t0: Track, t: Track, at: Loc, subgroup: nat, status: Status, payload: Option<nat>, complete: bool, datagram: bool, now: nat
  )
    requires TrackOk(t0) && at.group in t0.groups
    requires var e := EntryFor(t0.groups[at.group], at.obj, subgroup, status, payload, complete, datagram, now);
      SameObjects(Written(t0, at, e, false), t)
    ensures WriteStored(t0, t, at, subgroup, status, payload, complete, datagram, now)
  {
  }

  /**
   * A write is stored exactly when it contradicts nothing the cache knows; a
   * rejected one changes no object; gaps grow by what the write declares. An
   * exact index stays exact except when an incomplete object replaces a complete one.
   */
  method CacheObject(
    t0: Track, at: Loc, subgroup: nat, status: Status, ext: GapExtensions,
    payload: Option<nat>, complete: bool, datagram: bool, now: nat
  ) returns (t: Track, r: Outcome)
    requires TrackOk(t0) && at.group in t0.groups
    ensures TrackOk(t)
    ensures r.Stored? <==> Acceptable(t0, at, status, ext, payload, datagram)
    ensures r.Rejected? ==> SameObjects(t0, t)
    ensures r.Stored? ==>
      var e := EntryFor(t0.groups[at.group], at.obj, subgroup, status, payload, complete, datagram, now);
      SameObjects(Written(t0, at, e, false), t)
    ensures r.Stored? ==> WriteStored(t0, t, at, subgroup, status, payload, complete, datagram, now)
    ensures EndedIn(t0, t, at.group, status != Normal && GapsAccepted(t0, at, ext))
    ensures SeenAfter(t0, t, at.group,
                      if Contains(t0.gaps, at) then t0.groups[at.group].seenGroupGap
                      else SeenGap(t0.groups[at.group], at, ext.priorGroups))
    ensures GapsDeclared(t0, t.gaps, at, status, ext, GapsAccepted(t0, at, ext))
    ensures HasComplete(t0, at) ==> Contains(t.cached, at)
    ensures IndexExact(t0) ==> IndexExactBut(t, at)
    ensures IndexExact(t0) ==>
      (IndexExact(t) <==> !(r.Stored? && !complete && HasComplete(t0, at)))
  {
    if Contains(t0.gaps, at) {
      return t0, Rejected(ObjectInKnownGap);
    }
    t, r := DeclareAndStore(t0, at, subgroup, status, ext, payload, complete, datagram, now);
    if r.Stored? {
      WrittenIsStored(t0, t, at, subgroup, status, payload, complete, datagram, now);
    }
  }

  // The same at a location that is not a known gap.
  method DeclareAndStore(
    t0: Track, at: Loc, subgroup: nat, status: Status, ext: GapExtensions,
    payload: Option<nat>, complete: bool, datagram: bool, now: nat
  ) returns (t: Track, r: Outcome)
    requires TrackOk(t0) && at.group in t0.groups && !Contains(t0.gaps, at)
    ensures TrackOk(t)
    ensures r.Stored? <==> Acceptable(t0, at, status, ext, payload, datagram)
    ensures r.Rejected? ==> SameObjects(t0, t)
    ensures r.Stored? ==>
      var e := EntryFor(t0.groups[at.group], at.obj, subgroup, status, payload, complete, datagram, now);
      SameObjects(Written(t0, at, e, false), t)
    ensures EndedIn(t0, t, at.group, status != Normal && GapsAccepted(t0, at, ext))
    ensures SeenAfter(t0, t, at.group, SeenGap(t0.groups[at.group], at, ext.priorGroups))
    ensures GapsDeclared(t0, t.gaps, at, status, ext, GapsAccepted(t0, at, ext))
    ensures HasComplete(t0, at) ==> Contains(t.cached, at)
    ensures IndexExact(t0) ==> IndexExactBut(t, at)
    ensures IndexExact(t0) ==>
      (IndexExact(t) <==> !(r.Stored? && !complete && HasComplete(t0, at)))
  {
    t, r := DeclareGaps(t0, at, status, ext);
    if r.Rejected? {
      SameObjectsSameIndex(t0, t);
      return;
    }
    t, r := StoreDeclared(t0, t, at, subgroup, status, payload, complete, datagram, now);
  }

  // The rest of a write whose gaps t1 has recorded already.
  method StoreDeclared(
    ghost t0: Track, t1: Track, at: Loc, subgroup: nat, status: Status,
    payload: Option<nat>, complete: bool, datagram: bool, now: nat
  ) returns (t: Track, r: Outcome)
    requires TrackOk(t0) && TrackOk(t1) && SameObjects(t0, t1) && at.group in t0.groups
    requires !Contains(t1.gaps, at) && (status != Normal ==> EndedAfter(t1, at))
    ensures TrackOk(t) && t.gaps == t1.gaps
    ensures var g := t0.groups[at.group];
      r.Stored? <==> (at.obj in g.objects ==> Consistent(g.objects[at.obj], status, payload, datagram))
    ensures r.Rejected? ==> SameObjects(t0, t)
    ensures r.Stored? ==>
      var e := EntryFor(t0.groups[at.group], at.obj, subgroup, status, payload, complete, datagram, now);
      SameObjects(Written(t0, at, e, false), t)
    ensures EndedIn(t1, t, at.group, status != Normal) && SeenAfter(t1, t, at.group, t1.groups[at.group].seenGroupGap)
    ensures HasComplete(t0, at) ==> Contains(t.cached, at)
    ensures IndexExact(t1) ==> IndexExactBut(t, at)
    ensures IndexExact(t1) ==>
      (IndexExact(t) <==> !(r.Stored? && !complete && HasComplete(t0, at)))
  {
    SameObjectsSameIndex(t0, t1);
    t, r := StoreObject(t1, at, subgroup, status, payload, complete, datagram, now);
    if r.Stored? {
      ghost var e := EntryFor(t1.groups[at.group], at.obj, subgroup, status, payload, complete, datagram, now);
      PutEntryOver(t0, t1, at, e, status != Normal);
      PutEntryAt(t1, at, e, status != Normal, at);
      if IndexExact(t1) {
        WrittenIndexExact(t1, at, e, status != Normal);
      }
    } else {
      SameObjectsSameIndex(t1, t);
    }
  }

  // ---- The largest location and the end of the track ------------------------------

  // The end of the track, once known, is followed by gaps only.
  ghost predicate EndKnown(t: Track) {
    t.endOfTrack ==> t.largest.Some? && forall x: Loc :: t.largest.value.Less(x) ==> Contains(t.gaps, x)
  }

  // Records a location as the largest seen; fails past the end of the track, or for an
  // end of track that is not the largest location.
  function UpdateLargest(t: Track, at: Loc, endsTrack: bool): Option<Track> {
    if t.largest.None? || t.largest.value.Less(at) then
      if t.endOfTrack then None
      else Some(t.(endOfTrack := endsTrack, largest := Some(at)))
    else if endsTrack && at != t.largest.value then None
    else Some(t)
  }

  // Nothing lies past a recorded end, and the end of the track is the largest location.
  predicate FitsTrack(t: Track, at: Loc, endsTrack: bool) {
    && (t.endOfTrack ==> t.largest.Some? && at.AtMost(t.largest.value))
    && (endsTrack && t.largest.Some? ==> t.largest.value.AtMost(at))
  }

  // The largest location is the maximum of those seen; a new one decides whether the track has ended.
  ghost predicate LargestAfter(t0: Track, t: Track, at: Loc, endsTrack: bool) {
    && t.largest.Some? && at.AtMost(t.largest.value) && (t.largest.value == at || t.largest == t0.largest)
    && (t0.largest.Some? ==> t0.largest.value.AtMost(t.largest.value))
    && t.endOfTrack == (t0.endOfTrack || (endsTrack && t.largest != t0.largest))
  }

  lemma UpdateLargestOk(t: Track, at: Loc, endsTrack: bool)
    requires TrackOk(t)
    ensures UpdateLargest(t, at, endsTrack).Some? <==> FitsTrack(t, at, endsTrack)
    ensures FitsTrack(t, at, endsTrack) ==>
      var r := UpdateLargest(t, at, endsTrack).value;
      && TrackOk(r) && (IndexExact(t) ==> IndexExact(r)) && LargestAfter(t, r, at, endsTrack)
      && r.groups == t.groups && r.gaps == t.gaps
  {
    if FitsTrack(t, at, endsTrack) {
      var r := UpdateLargest(t, at, endsTrack).value;
      assert forall x: Loc :: HasComplete(r, x) == HasComplete(t, x);
    }
  }

  // Acceptance depends on the objects and gaps alone.
  lemma AcceptableFrame(
    a: Track, b: Track, at: Loc, status: Status, ext: GapExtensions, payload: Option<nat>, datagram: bool
  )
    requires a.groups == b.groups && a.gaps == b.gaps && at.group in a.groups
    ensures Acceptable(a, at, status, ext, payload, datagram) <==> Acceptable(b, at, status, ext, payload, datagram)
  {
  }

  // The end of the track is recorded, but the write is rejected before it declares gaps.
  ghost predicate LeavesEndOpen(t: Track, at: Loc, status: Status, ext: GapExtensions)
    requires at.group in t.groups
  {
    && status == EndOfTrack && !GapsAccepted(t, at, ext)
    && UpdateLargest(t, at, true).Some? && UpdateLargest(t, at, true).value.endOfTrack
    && exists x: Loc :: at.Less(x) && !Contains(t.gaps, x)
  }

  /**
   * Every location after the end of the track is a known gap after a write, unless an
   * end of track was rejected too early for that.
   */
  lemma EndKnownAfterWrite(t0: Track, t1: Track, t: Track, at: Loc, status: Status, ext: GapExtensions)
    requires at.group in t0.groups && EndKnown(t0) && UpdateLargest(t0, at, status == EndOfTrack) == Some(t1)
    requires t.endOfTrack == t1.endOfTrack && t.largest == t1.largest
    requires GapsDeclared(t1, t.gaps, at, status, ext, GapsAccepted(t1, at, ext))
    ensures EndKnown(t) <==> !LeavesEndOpen(t0, at, status, ext)
  {
    if LeavesEndOpen(t0, at, status, ext) {
      var x: Loc :| at.Less(x) && !Contains(t0.gaps, x);
      assert !DeclaredByExtensions(t1, at, ext, x) && !Contains(t.gaps, x);
    }
  }

  // No object but the one written changes.
  ghost predicate OthersStay(t0: Track, t: Track, at: Loc, stored: bool) {
    forall x: Loc :: HasObject(t0, x) && (stored ==> x != at) ==>
      HasObject(t, x) && t.groups[x.group].objects[x.obj] == t0.groups[x.group].objects[x.obj]
  }

  lemma OthersStayed(
    t0: Track, t1: Track, t: Track, at: Loc, subgroup: nat, status: Status, payload: Option<nat>, datagram: bool, now: nat,
    stored: bool
  )
    requires t1.groups == t0.groups && at.group in t0.groups
    requires if stored then WriteStored(t1, t, at, subgroup, status, payload, true, datagram, now) else SameObjects(t1, t)
    ensures t.groups.Keys == t0.groups.Keys && OthersStay(t0, t, at, stored)
  {
  }

  /**
   * A complete object as published: it is stored exactly when it fits the largest
   * location seen and contradicts nothing the cache knows.
   */
  method PublishObject(
    t0: Track, at: Loc, subgroup: nat, status: Status, ext: GapExtensions,
    payload: Option<nat>, datagram: bool, now: nat
  ) returns (t: Track, r: Outcome)
    requires TrackOk(t0) && at.group in t0.groups
    ensures TrackOk(t)
    ensures IndexExact(t0) ==> IndexExact(t)
    ensures EndKnown(t0) ==> (EndKnown(t) <==> !LeavesEndOpen(t0, at, status, ext))
    ensures r.Stored? <==> FitsTrack(t0, at, status == EndOfTrack) && Acceptable(t0, at, status, ext, payload, datagram)
    ensures r.Stored? ==> HasComplete(t, at)
    ensures if FitsTrack(t0, at, status == EndOfTrack) then LargestAfter(t0, t, at, status == EndOfTrack) else t == t0
    ensures t.groups.Keys == t0.groups.Keys && OthersStay(t0, t, at, r.Stored?)
  {
    var t1 := UpdateLargest(t0, at, status == EndOfTrack);
    UpdateLargestOk(t0, at, status == EndOfTrack);
    if t1.None? {
      return t0, Rejected(MalformedTrack);
    }
    AcceptableFrame(t0, t1.value, at, status, ext, payload, datagram);
    t, r := CacheObject(t1.value, at, subgroup, status, ext, payload, true, datagram, now);
    OthersStayed(t0, t1.value, t, at, subgroup, status, payload, datagram, now, r.Stored?);
    if EndKnown(t0) {
      EndKnownAfterWrite(t0, t1.value, t, at, status, ext);
    }
  }

  // A track with the given location known to be absent and nothing else.
  function OnlyGap(at: Loc): Track {
    EMPTY_TRACK.(groups := map[at.group := Group(map[], 0, false, None, 0, false)],
                 gaps := [Interval(at, at)], cached := [Interval(at, at)])
  }

  /** An end of track at a known gap is rejected, and yet leaves the end of the track recorded and open. */
  method OpenEnd(at: Loc, now: nat) returns (t: Track, r: Outcome)
    requires at.Less(MAX_LOC)
    ensures r.Rejected? && t.endOfTrack && !EndKnown(t)
  {
    var t0 := OnlyGap(at);
    assert Sizes(map[]) == map[];
    assert !Contains(t0.gaps, MAX_LOC) && Contains(t0.gaps, at);
    t, r := PublishObject(t0, at, 0, EndOfTrack, GapExtensions(None, None), None, false, now);
  }

  // ---- Streaming, expiry, eviction --------------------------------------------

  // The object has the bytes added, and no other object changes.
  ghost predicate PayloadAppended(t0: Track, t: Track, at: Loc, added: nat, completes: bool)
    requires HasObject(t0, at)
  {
    var g, e := t0.groups[at.group], t0.groups[at.group].objects[at.obj];
    && t.groups.Keys == t0.groups.Keys
    && t.groups[at.group].objects ==
       g.objects[at.obj := e.(hasPayload := true, size := e.size + added, complete := e.complete || completes)]
    && forall h :: h in t0.groups && h != at.group ==> t.groups[h] == t0.groups[h]
  }

  // More payload bytes for an object still being received; the last ones complete it.
  function AppendPayload(t: Track, at: Loc, added: nat, completes: bool): (r: Track)
    requires TrackOk(t) && HasObject(t, at)
    ensures TrackOk(r) && r.gaps == t.gaps
    ensures HasObject(r, at) && HasComplete(r, at) == (HasComplete(t, at) || completes)
    ensures r.groups[at.group].objects[at.obj].size == t.groups[at.group].objects[at.obj].size + added
    ensures PayloadAppended(t, r, at, added, completes)
  {
    var prior := t.groups[at.group].objects[at.obj];
    PutEntry(t, at, prior.(hasPayload := true, size := prior.size + added, complete := prior.complete || completes), false)
  }

  function TakeObject(g: Group, o: Id): (r: Group)
    requires GroupOk(g) && o in g.objects
    ensures GroupOk(r) && g.objects[o].size <= g.totalBytes
    ensures r == g.(objects := g.objects - {o}, totalBytes := g.totalBytes - g.objects[o].size)
  {
    SumTakeOut(Sizes(g.objects), o);
    assert Sizes(g.objects - {o}) == Sizes(g.objects) - {o};
    g.(objects := g.objects - {o}, totalBytes := g.totalBytes - g.objects[o].size)
  }

  // The object is gone from its group, with its bytes.
  ghost predicate ObjectTaken(t0: Track, t: Track, at: Loc)
    requires HasObject(t0, at)
  {
    var g := t0.groups[at.group];
    && g.objects[at.obj].size <= g.totalBytes
    && var left := g.(objects := g.objects - {at.obj}, totalBytes := g.totalBytes - g.objects[at.obj].size);
    t == t0.(groups := t0.groups[at.group := left], cached := t.cached)
  }

  // Drops an object that outlived the track's cache duration.
  function Expire(t: Track, at: Loc): (r: Track)
    requires TrackOk(t) && HasObject(t, at)
    ensures TrackOk(r) && ObjectTaken(t, r, at)
    ensures forall x: Loc :: HasComplete(r, x) <==> x != at && HasComplete(t, x)
    ensures forall x: Loc :: Contains(r.cached, x) <==> x != at && Contains(t.cached, x)
  {
    t.(groups := t.groups[at.group := TakeObject(t.groups[at.group], at.obj)],
       cached := Remove(t.cached, at, at))
  }

  // The age after which an object is dropped: that of the track, or else the default.
  function AgeLimit(t: Track, defaultAge: Option<nat>): Option<nat> {
    if t.maxAge.None? then defaultAge else t.maxAge
  }

  predicate Expired(t: Track, x: Loc, now: nat, defaultAge: Option<nat>)
    requires HasObject(t, x)
  {
    var limit := if t.maxAge.Some? then t.maxAge else defaultAge;
    limit.Some? && now - t.groups[x.group].objects[x.obj].cachedAt > limit.value
  }

  /**
   * The lookup of one object: a hit exactly when it is complete and not too old. An
   * object found too old is dropped on the way.
   */
  method GetCachedObjectMaybe(t0: Track, x: Loc, now: nat, defaultAge: Option<nat>) returns (t: Track, hit: bool)
    requires TrackOk(t0)
    ensures TrackOk(t) && (IndexExact(t0) ==> IndexExact(t))
    ensures hit <==> HasComplete(t0, x) && !Expired(t0, x, now, defaultAge)
    ensures hit <==> HasComplete(t0, x) && (AgeLimit(t0, defaultAge).Some? ==>
      now <= t0.groups[x.group].objects[x.obj].cachedAt + AgeLimit(t0, defaultAge).value)
    ensures if HasObject(t0, x) && Expired(t0, x, now, defaultAge) then t == Expire(t0, x) else t == t0
  {
    t, hit := t0, false;
    if !HasObject(t, x) {
      return;
    }
    if Expired(t, x, now, defaultAge) {
      if IndexExact(t) {
        ExpireIndexExact(t, x);
      }
      t := Expire(t, x);
      return;
    }
    hit := t.groups[x.group].objects[x.obj].complete;
  }

  // Drops a whole group; the gaps it proved stay known.
  function DropGroup(t: Track, g: Id): (r: Track)
    requires TrackOk(t) && g in t.groups
    ensures TrackOk(r) && r.gaps == t.gaps && r.groups == t.groups - {g}
    ensures forall x: Loc :: Contains(r.cached, x) <==> x.group != g && Contains(t.cached, x)
  {
    t.(groups := t.groups - {g},
       cached := Remove(t.cached, Loc(g, 0), Loc(g, MAX_ID)),
       groupLru := Without(t.groupLru, g))
  }

  lemma AppendIndexExact(t: Track, at: Loc, added: nat, completes: bool)
    requires TrackOk(t) && HasObject(t, at) && IndexExact(t)
    ensures IndexExact(AppendPayload(t, at, added, completes))
  {
  }

  lemma ExpireIndexExact(t: Track, at: Loc)
    requires TrackOk(t) && HasObject(t, at) && IndexExact(t)
    ensures IndexExact(Expire(t, at))
  {
  }

  lemma OtherGroups(t: Track, r: Track, g: Id, x: Loc)
    requires r.groups == t.groups - {g}
    ensures x.group != g ==> HasComplete(r, x) == HasComplete(t, x)
  {
  }

  lemma DropIndexExact(t: Track, g: Id)
    requires TrackOk(t) && g in t.groups && IndexExact(t)
    ensures IndexExact(DropGroup(t, g))
  {
    var r := DropGroup(t, g);
    forall x: Loc | Contains(r.cached, x) ensures Contains(r.gaps, x) || HasComplete(r, x) {
      OtherGroups(t, r, g, x);
    }
  }
}
