/**
 * The cache over all tracks: byte accounting, the eviction lists and eviction.
 */
module CacheStores {
  import opened Common
  import opened Locations
  import opened CacheTracks

  type Name = string

  // ---- Bytes ----------------------------------------------------------------------

  ghost function GroupSizes(groups: map<Id, Group>): map<Id, nat> {
    map g | g in groups :: groups[g].totalBytes
  }

  ghost function TrackBytes(t: Track): nat {
    Sum(GroupSizes(t.groups))
  }

  ghost function TrackSizes(tracks: map<Name, Track>): map<Name, nat> {
    map n | n in tracks :: TrackBytes(tracks[n])
  }

  // The payload bytes of all live groups of all tracks.
  ghost function StoreBytes(tracks: map<Name, Track>): nat {
    Sum(TrackSizes(tracks))
  }

  lemma StoreBytesPut(tracks: map<Name, Track>, n: Name, t: Track)
    ensures n in tracks ==>
      && TrackBytes(tracks[n]) <= StoreBytes(tracks)
      && StoreBytes(tracks[n := t]) == StoreBytes(tracks) - TrackBytes(tracks[n]) + TrackBytes(t)
    ensures n !in tracks ==> StoreBytes(tracks[n := t]) == StoreBytes(tracks) + TrackBytes(t)
  {
    SumPut(TrackSizes(tracks), n, TrackBytes(t));
    assert TrackSizes(tracks[n := t]) == TrackSizes(tracks)[n := TrackBytes(t)];
  }

  lemma StoreBytesDrop(tracks: map<Name, Track>, n: Name)
    requires n in tracks
    ensures StoreBytes(tracks - {n}) == StoreBytes(tracks) - TrackBytes(tracks[n])
  {
    SumTakeOut(TrackSizes(tracks), n);
    assert TrackSizes(tracks - {n}) == TrackSizes(tracks) - {n};
  }

  lemma TrackBytesPut(t: Track, g: Id, group: Group)
    ensures var r := t.(groups := t.groups[g := group]);
      && (g in t.groups ==>
            && t.groups[g].totalBytes <= TrackBytes(t)
            && TrackBytes(r) == TrackBytes(t) - t.groups[g].totalBytes + group.totalBytes)
      && (g !in t.groups ==> TrackBytes(r) == TrackBytes(t) + group.totalBytes)
  {
    var r := t.(groups := t.groups[g := group]);
    SumPut(GroupSizes(t.groups), g, group.totalBytes);
    assert GroupSizes(r.groups) == GroupSizes(t.groups)[g := group.totalBytes];
  }

  lemma TrackBytesDrop(t: Track, g: Id)
    requires TrackOk(t) && g in t.groups
    ensures TrackBytes(DropGroup(t, g)) == TrackBytes(t) - t.groups[g].totalBytes
  {
    SumTakeOut(GroupSizes(t.groups), g);
    assert GroupSizes(DropGroup(t, g).groups) == GroupSizes(t.groups) - {g};
  }

  // ---- The eviction lists -----------------------------------------------------------

  ghost function Unpinned(t: Track): set<Id> {
    set g | g in t.groups && t.groups[g].evictable
  }

  ghost function AllUnpinned(tracks: map<Name, Track>): set<(Name, Id)> {
    set n, g | n in tracks && g in tracks[n].groups && tracks[n].groups[g].evictable :: (n, g)
  }

  predicate CanEvict(t: Track) {
    t.writers == 0 && t.fetches == 0
  }

  ghost function Idle(tracks: map<Name, Track>): set<Name> {
    set n | n in tracks && CanEvict(tracks[n])
  }

  // The list of a track names exactly its unpinned groups, each once.
  ghost predicate LruOk(t: Track) {
    NoDup(t.groupLru) && Elems(t.groupLru) == Unpinned(t)
  }

  ghost predicate TracksOk(tracks: map<Name, Track>) {
    forall n :: n in tracks ==> TrackOk(tracks[n]) && LruOk(tracks[n])
  }

  // Everything the cache holds.
  datatype Store = Store(tracks: map<Name, Track>, trackLru: seq<Name>, globalLru: seq<(Name, Id)>, totalBytes: nat)

  // The global list names exactly the unpinned groups of all tracks, the track list
  // only idle tracks.
  ghost predicate ListsOk(s: Store) {
    && NoDup(s.trackLru) && Elems(s.trackLru) <= Idle(s.tracks)
    && NoDup(s.globalLru) && Elems(s.globalLru) == AllUnpinned(s.tracks)
  }

  /** The invariant of the whole cache; the byte count is the sum over all live groups. */
  ghost predicate StoreOk(s: Store) {
    TracksOk(s.tracks) && ListsOk(s) && s.totalBytes == StoreBytes(s.tracks)
  }

  // Both lists keep their order, less what is gone.
  ghost predicate ListsKept(s0: Store, s: Store) {
    s.globalLru == Kept(s0.globalLru, AllUnpinned(s.tracks)) && s.trackLru == Kept(s0.trackLru, s.tracks.Keys)
  }

  lemma ListsKeptAtFirst(s: Store)
    requires ListsOk(s)
    ensures ListsKept(s, s)
  {
    KeptAll(s.globalLru, AllUnpinned(s.tracks));
    KeptAll(s.trackLru, s.tracks.Keys);
  }

  // ---- Dropping groups and tracks -----------------------------------------------------

  // Takes one group out of its track, both lists and the byte count.
  function WithoutGroup(s: Store, n: Name, g: Id): (r: Store)
    requires StoreOk(s) && n in s.tracks && g in s.tracks[n].groups
    ensures StoreOk(r)
  {
    GroupBytesBound(s.tracks, n, g);
    WithoutGroupTracks(s.tracks, n, g);
    WithoutGroupLists(s, n, g);
    WithoutGroupBytes(s.tracks, n, g);
    Store(s.tracks[n := DropGroup(s.tracks[n], g)], s.trackLru, Without(s.globalLru, (n, g)),
          s.totalBytes - s.tracks[n].groups[g].totalBytes)
  }

  /** The group is gone from its track, both lists and the byte count; everything else stays. */
  lemma GroupIsGone(s: Store, n: Name, g: Id)
    requires StoreOk(s) && n in s.tracks && g in s.tracks[n].groups
    ensures var r := WithoutGroup(s, n, g);
      && StoreOk(r) && n in r.tracks && r.tracks[n].groups == s.tracks[n].groups - {g} && r.tracks[n].gaps == s.tracks[n].gaps
      && SameTracksBut(s.tracks, r.tracks, n) && r.trackLru == s.trackLru
      && (n, g) !in r.globalLru && r.totalBytes == s.totalBytes - s.tracks[n].groups[g].totalBytes
  {
    WithoutElems(s.globalLru, (n, g));
    assert (n, g) !in Elems(Without(s.globalLru, (n, g)));
  }

  lemma WithoutGroupTracks(tracks: map<Name, Track>, n: Name, g: Id)
    requires TracksOk(tracks) && n in tracks && g in tracks[n].groups
    ensures TracksOk(tracks[n := DropGroup(tracks[n], g)])
  {
    WithoutElems(tracks[n].groupLru, g);
    assert Unpinned(DropGroup(tracks[n], g)) == Unpinned(tracks[n]) - {g};
  }

  lemma WithoutGroupLists(s: Store, n: Name, g: Id)
    requires ListsOk(s) && n in s.tracks && g in s.tracks[n].groups && TrackOk(s.tracks[n])
    ensures ListsOk(s.(tracks := s.tracks[n := DropGroup(s.tracks[n], g)], globalLru := Without(s.globalLru, (n, g))))
  {
    var after := s.tracks[n := DropGroup(s.tracks[n], g)];
    WithoutElems(s.globalLru, (n, g));
    assert AllUnpinned(after) == AllUnpinned(s.tracks) - {(n, g)};
    assert Idle(after) == Idle(s.tracks);
  }

  lemma WithoutGroupKeeps(s0: Store, s: Store, n: Name, g: Id)
    requires StoreOk(s) && n in s.tracks && g in s.tracks[n].groups && ListsKept(s0, s)
    ensures ListsKept(s0, WithoutGroup(s, n, g))
  {
    var after := s.tracks[n := DropGroup(s.tracks[n], g)];
    KeptWithout(s0.globalLru, AllUnpinned(s.tracks), (n, g));
    assert AllUnpinned(after) == AllUnpinned(s.tracks) - {(n, g)};
    assert after.Keys == s.tracks.Keys;
  }

  lemma WithoutTrackKeeps(s0: Store, s: Store, n: Name)
    requires StoreOk(s) && n in s.tracks && s.tracks[n].groups == map[] && ListsKept(s0, s)
    ensures ListsKept(s0, WithoutTrack(s, n))
  {
    KeptWithout(s0.trackLru, s.tracks.Keys, n);
    assert (s.tracks - {n}).Keys == s.tracks.Keys - {n};
    assert AllUnpinned(s.tracks - {n}) == AllUnpinned(s.tracks);
  }

  lemma WithoutGroupBytes(tracks: map<Name, Track>, n: Name, g: Id)
    requires n in tracks && g in tracks[n].groups && TrackOk(tracks[n])
    ensures StoreBytes(tracks[n := DropGroup(tracks[n], g)]) == StoreBytes(tracks) - tracks[n].groups[g].totalBytes
  {
    TrackBytesDrop(tracks[n], g);
    StoreBytesPut(tracks, n, DropGroup(tracks[n], g));
  }

  lemma GroupBytesBound(tracks: map<Name, Track>, n: Name, g: Id)
    requires n in tracks && g in tracks[n].groups
    ensures tracks[n].groups[g].totalBytes <= StoreBytes(tracks)
  {
    TrackBytesPut(tracks[n], g, tracks[n].groups[g]);
    StoreBytesPut(tracks, n, tracks[n]);
  }

  // Takes out a track that has lost all its groups.
  function WithoutTrack(s: Store, n: Name): (r: Store)
    requires StoreOk(s) && n in s.tracks && s.tracks[n].groups == map[]
    ensures StoreOk(r)
  {
    WithoutTrackOk(s, n);
    s.(tracks := s.tracks - {n}, trackLru := Without(s.trackLru, n))
  }

  lemma WithoutTrackOk(s: Store, n: Name)
    requires StoreOk(s) && n in s.tracks && s.tracks[n].groups == map[]
    ensures StoreOk(s.(tracks := s.tracks - {n}, trackLru := Without(s.trackLru, n)))
  {
    WithoutElems(s.trackLru, n);
    assert Idle(s.tracks - {n}) == Idle(s.tracks) - {n};
    assert AllUnpinned(s.tracks - {n}) == AllUnpinned(s.tracks);
    StoreBytesDrop(s.tracks, n);
    assert GroupSizes(s.tracks[n].groups) == map[];
  }

  ghost predicate SameTracksBut(a: map<Name, Track>, b: map<Name, Track>, n: Name) {
    a.Keys == b.Keys && forall m :: m in a && m != n ==> b[m] == a[m]
  }

  lemma SameWithout(a: map<Name, Track>, b: map<Name, Track>, n: Name)
    requires SameTracksBut(a, b, n)
    ensures b - {n} == a - {n}
  {
  }

  // Drops all groups of a track.
  method EmptyTrack(s0: Store, n: Name) returns (s: Store)
    requires StoreOk(s0) && n in s0.tracks
    ensures StoreOk(s) && n in s.tracks && SameTracksBut(s0.tracks, s.tracks, n) && ListsKept(s0, s)
    ensures s.tracks[n].groups == map[]
  {
    s := s0;
    ListsKeptAtFirst(s0);
    while s.tracks[n].groups.Keys != {}
      invariant StoreOk(s) && n in s.tracks && ListsKept(s0, s)
      invariant SameTracksBut(s0.tracks, s.tracks, n)
      decreases s.tracks[n].groups.Keys
    {
      var g :| g in s.tracks[n].groups.Keys;
      s := DropOne(s0, s, n, g);
    }
  }

  // Drops a track with all its groups; the other tracks are not touched.
  method EvictTrack(s0: Store, n: Name) returns (s: Store, count: nat)
    requires StoreOk(s0)
    ensures StoreOk(s)
    ensures s.tracks == s0.tracks - {n} && ListsKept(s0, s)
    ensures count == if n in s0.tracks then 1 else 0
  {
    s, count := s0, 0;
    if n !in s.tracks {
      ListsKeptAtFirst(s0);
      return;
    }
    s := EmptyTrack(s, n);
    SameWithout(s0.tracks, s.tracks, n);
    WithoutTrackKeeps(s0, s, n);
    s, count := WithoutTrack(s, n), 1;
  }

  method DropOne(ghost before: Store, s0: Store, n: Name, g: Id) returns (s: Store)
    requires StoreOk(s0) && n in s0.tracks && g in s0.tracks[n].groups && ListsKept(before, s0)
    ensures StoreOk(s) && n in s.tracks && SameTracksBut(s0.tracks, s.tracks, n) && ListsKept(before, s)
    ensures s.tracks[n].groups.Keys == s0.tracks[n].groups.Keys - {g}
  {
    WithoutGroupKeeps(before, s0, n, g);
    s := WithoutGroup(s0, n, g);
  }

  // ---- Evicting by least recent use ------------------------------------------------

  // Groups were dropped from a track: none changed, no gap forgotten, the pinned ones kept.
  ghost predicate Shrinks(a: Track, b: Track) {
    && b == a.(groups := b.groups, cached := b.cached, groupLru := b.groupLru)
    && (forall g :: g in b.groups ==> g in a.groups && b.groups[g] == a.groups[g])
    && (forall g :: g in a.groups && !a.groups[g].evictable ==> g in b.groups)
  }

  ghost predicate NonePinned(t: Track) {
    forall g :: g in t.groups ==> t.groups[g].evictable
  }

  ghost predicate OnlyDrops(before: map<Name, Track>, after: map<Name, Track>) {
    && (forall n :: n in after ==> n in before && Shrinks(before[n], after[n]))
    && (forall n :: n in before && n !in after ==> NonePinned(before[n]))
  }

  lemma ShrinksDropGroup(a: Track, b: Track, g: Id)
    requires Shrinks(a, b) && TrackOk(b) && g in b.groups && b.groups[g].evictable
    ensures Shrinks(a, DropGroup(b, g))
  {
  }

  lemma OnlyDropsGroup(before: map<Name, Track>, after: map<Name, Track>, n: Name, g: Id)
    requires OnlyDrops(before, after)
    requires n in after && TrackOk(after[n]) && g in after[n].groups && after[n].groups[g].evictable
    ensures OnlyDrops(before, after[n := DropGroup(after[n], g)])
  {
    ShrinksDropGroup(before[n], after[n], g);
  }

  lemma OnlyDropsTrack(before: map<Name, Track>, after: map<Name, Track>, n: Name)
    requires OnlyDrops(before, after) && n in after && after[n].groups == map[]
    ensures OnlyDrops(before, after - {n})
  {
    assert Shrinks(before[n], after[n]);
  }

  // The oldest unpinned group of a track is at the back of its list.
  function WithoutOldestGroup(s: Store, n: Name): (r: Store)
    requires StoreOk(s) && n in s.tracks && s.tracks[n].groupLru != []
    ensures StoreOk(r) && n in r.tracks
    ensures r.tracks - {n} == s.tracks - {n}
    ensures var lru := s.tracks[n].groupLru; r.tracks[n].groupLru == lru[..|lru| - 1]
  {
    var lru := s.tracks[n].groupLru;
    assert lru[|lru| - 1] in Elems(lru);
    WithoutLast(lru);
    WithoutGroup(s, n, lru[|lru| - 1])
  }

  lemma OnlyDropsOldest(before: Store, s: Store, n: Name)
    requires StoreOk(s) && n in s.tracks && s.tracks[n].groupLru != [] && OnlyDrops(before.tracks, s.tracks)
    ensures OnlyDrops(before.tracks, WithoutOldestGroup(s, n).tracks)
  {
    var lru := s.tracks[n].groupLru;
    assert lru[|lru| - 1] in Elems(lru);
    OnlyDropsGroup(before.tracks, s.tracks, n, lru[|lru| - 1]);
  }

  lemma OldestGroupKeeps(before: Store, s: Store, n: Name)
    requires StoreOk(s) && n in s.tracks && s.tracks[n].groupLru != [] && ListsKept(before, s)
    ensures ListsKept(before, WithoutOldestGroup(s, n)) && WithoutOldestGroup(s, n).trackLru == s.trackLru
  {
    var lru := s.tracks[n].groupLru;
    assert lru[|lru| - 1] in Elems(lru);
    WithoutGroupKeeps(before, s, n, lru[|lru| - 1]);
  }

  // Keeps a track within its group limit as far as unpinned groups allow.
  method EvictOldestGroupsIfNeeded(s0: Store, n: Name, maxGroups: nat) returns (s: Store)
    requires StoreOk(s0) && n in s0.tracks
    ensures StoreOk(s) && OnlyDrops(s0.tracks, s.tracks) && n in s.tracks && ListsKept(s0, s)
    ensures s.tracks - {n} == s0.tracks - {n} && s.trackLru == s0.trackLru
    ensures maxGroups == 0 || |s0.tracks[n].groups| <= maxGroups ==> s == s0
    ensures maxGroups > 0 ==> |s.tracks[n].groups| <= maxGroups || s.tracks[n].groupLru == []
    ensures |s0.tracks[n].groups| > maxGroups ==> |s.tracks[n].groups| >= maxGroups
    ensures s.tracks[n].groupLru <= s0.tracks[n].groupLru
  {
    s := s0;
    ListsKeptAtFirst(s0);
    if maxGroups == 0 {
      return;
    }
    while |s.tracks[n].groups| > maxGroups && s.tracks[n].groupLru != []
      invariant StoreOk(s) && OnlyDrops(s0.tracks, s.tracks) && n in s.tracks
      invariant ListsKept(s0, s) && s.trackLru == s0.trackLru
      invariant s.tracks - {n} == s0.tracks - {n}
      invariant s.tracks[n].groupLru <= s0.tracks[n].groupLru
      invariant |s0.tracks[n].groups| <= maxGroups ==> s == s0
      invariant |s0.tracks[n].groups| > maxGroups ==> |s.tracks[n].groups| >= maxGroups
      decreases |s.tracks[n].groupLru|
    {
      OnlyDropsOldest(s0, s, n);
      OldestGroupKeeps(s0, s, n);
      s := WithoutOldestGroup(s, n);
    }
  }

  // The oldest unpinned group of all is at the back of the global list.
  lemma OldestKeeps(before: Store, s: Store)
    requires StoreOk(s) && s.globalLru != [] && ListsKept(before, s)
    ensures ListsKept(before, WithoutOldest(s))
  {
    var (n, g) := s.globalLru[|s.globalLru| - 1];
    assert (n, g) in Elems(s.globalLru);
    WithoutGroupKeeps(before, s, n, g);
  }

  function WithoutOldest(s: Store): (r: Store)
    requires StoreOk(s) && s.globalLru != []
    ensures StoreOk(r) && r.globalLru == s.globalLru[..|s.globalLru| - 1]
  {
    var (n, g) := s.globalLru[|s.globalLru| - 1];
    assert (n, g) in Elems(s.globalLru);
    WithoutLast(s.globalLru);
    WithoutGroup(s, n, g)
  }

  function Target(maxBytes: nat, minEviction: nat): nat {
    if minEviction < maxBytes then maxBytes - minEviction else 0
  }

  // The size of the group that the global list names at position i.
  function SizeAt(s: Store, i: nat): nat
    requires i < |s.globalLru|
  {
    var (n, g) := s.globalLru[i];
    if n in s.tracks && g in s.tracks[n].groups then s.tracks[n].groups[g].totalBytes else 0
  }

  // The tracks that are gone were idle and without pinned groups, and no idle track is
  // left that was emptied.
  ghost predicate ShellsGone(before: map<Name, Track>, after: map<Name, Track>) {
    && (forall n :: n in before && n !in after ==> CanEvict(before[n]))
    && (forall n :: n in before && n in after && CanEvict(after[n]) && after[n].groups == map[] ==> before[n].groups == map[])
  }

  // An eviction in progress: a suffix of the list is gone, and each group of it had to go.
  ghost predicate Evicting(before: Store, s: Store, target: nat) {
    && OnlyDrops(before.tracks, s.tracks) && ShellsGone(before.tracks, s.tracks)
    && s.globalLru <= before.globalLru
    && (|s.globalLru| < |before.globalLru| ==> s.totalBytes + SizeAt(before, |s.globalLru|) > target)
  }

  // What an eviction by bytes achieves: nothing below the limit; above it, the low
  // watermark unless only pinned groups are left, and no group more than that takes.
  ghost predicate WithinBytes(before: Store, s: Store, maxBytes: nat, minEviction: nat) {
    if maxBytes == 0 || before.totalBytes <= maxBytes then s == before
    else
      && OnlyDrops(before.tracks, s.tracks) && ShellsGone(before.tracks, s.tracks)
      && ListsKept(before, s) && s.globalLru <= before.globalLru
      && (s.globalLru == [] || s.totalBytes == 0 || s.totalBytes + minEviction <= maxBytes)
      && (|s.globalLru| < |before.globalLru| ==>
            var last := s.totalBytes + SizeAt(before, |s.globalLru|);
            last > 0 && last + minEviction > maxBytes)
  }

  // What taking out the oldest group changes.
  lemma WithoutOldestIs(s: Store)
    requires StoreOk(s) && s.globalLru != []
    ensures var r, (n, g) := WithoutOldest(s), s.globalLru[|s.globalLru| - 1];
      && n in s.tracks && g in s.tracks[n].groups && s.tracks[n].groups[g].evictable && TrackOk(s.tracks[n])
      && r.tracks == s.tracks[n := DropGroup(s.tracks[n], g)]
      && r.totalBytes == s.totalBytes - SizeAt(s, |s.globalLru| - 1)
  {
    var (n, g) := s.globalLru[|s.globalLru| - 1];
    assert (n, g) in Elems(s.globalLru);
  }

  // The same while track n may still have to go.
  ghost predicate EvictingBut(before: Store, s: Store, n: Name, target: nat) {
    && OnlyDrops(before.tracks, s.tracks) && ShellsGone(before.tracks - {n}, s.tracks - {n})
    && s.globalLru <= before.globalLru && n in before.tracks && n in s.tracks
    && (|s.globalLru| < |before.globalLru| ==> s.totalBytes + SizeAt(before, |s.globalLru|) > target)
  }

  lemma EvictingGroup(before: Store, s: Store, r: Store, n: Name, g: Id, target: nat)
    requires Evicting(before, s, target) && s.globalLru != [] && s.totalBytes > target
    requires s.globalLru[|s.globalLru| - 1] == (n, g)
    requires n in s.tracks && g in s.tracks[n].groups && s.tracks[n].groups[g].evictable && TrackOk(s.tracks[n])
    requires r.tracks == s.tracks[n := DropGroup(s.tracks[n], g)]
    requires r.globalLru == s.globalLru[..|s.globalLru| - 1]
    requires r.totalBytes == s.totalBytes - SizeAt(s, |s.globalLru| - 1)
    ensures EvictingBut(before, r, n, target)
  {
    OnlyDropsGroup(before.tracks, s.tracks, n, g);
    assert Shrinks(before.tracks[n], s.tracks[n]);
    assert SizeAt(before, |r.globalLru|) == SizeAt(s, |r.globalLru|);
  }

  // Track n stays because it is busy or holds something.
  lemma ShellStays(before: Store, s: Store, n: Name, target: nat)
    requires EvictingBut(before, s, n, target) && !(CanEvict(s.tracks[n]) && s.tracks[n].groups == map[])
    ensures Evicting(before, s, target)
  {
    forall m | m in before.tracks && m !in s.tracks ensures CanEvict(before.tracks[m]) {
      assert m in before.tracks - {n} && m !in s.tracks - {n};
    }
    forall m | m in before.tracks && m in s.tracks && CanEvict(s.tracks[m]) && s.tracks[m].groups == map[]
      ensures before.tracks[m].groups == map[]
    {
      assert m in before.tracks - {n} && m in s.tracks - {n};
    }
  }

  // Track n goes.
  lemma ShellGoes(before: Store, s: Store, r: Store, n: Name, target: nat)
    requires EvictingBut(before, s, n, target) && CanEvict(s.tracks[n]) && s.tracks[n].groups == map[]
    requires r == s.(tracks := s.tracks - {n}, trackLru := r.trackLru)
    ensures Evicting(before, r, target)
  {
    OnlyDropsTrack(before.tracks, s.tracks, n);
    assert Shrinks(before.tracks[n], s.tracks[n]);
    forall m | m in before.tracks && m !in r.tracks ensures CanEvict(before.tracks[m]) {
      assert m != n ==> m in before.tracks - {n} && m !in s.tracks - {n};
    }
    forall m | m in before.tracks && m in r.tracks && CanEvict(r.tracks[m]) && r.tracks[m].groups == map[]
      ensures before.tracks[m].groups == map[]
    {
      assert m in before.tracks - {n} && m in s.tracks - {n};
    }
  }

  // One turn of the eviction loop: the oldest group, and its track once that is empty and idle.
  method EvictOldest(s0: Store, ghost before: Store, ghost target: nat) returns (s: Store)
    requires StoreOk(s0) && Evicting(before, s0, target) && s0.globalLru != [] && s0.totalBytes > target
    requires ListsKept(before, s0)
    ensures StoreOk(s) && Evicting(before, s, target) && ListsKept(before, s)
    ensures s.globalLru == s0.globalLru[..|s0.globalLru| - 1]
  {
    var (n, g) := s0.globalLru[|s0.globalLru| - 1];
    WithoutOldestIs(s0);
    OldestKeeps(before, s0);
    s := WithoutOldest(s0);
    EvictingGroup(before, s0, s, n, g, target);
    if n in s.tracks && s.tracks[n].groups == map[] && CanEvict(s.tracks[n]) {
      ghost var emptied := s;
      WithoutTrackKeeps(before, s, n);
      s := WithoutTrack(s, n);
      ShellGoes(before, emptied, s, n, target);
    } else {
      ShellStays(before, s, n, target);
    }
  }

  /**
   * Evicts the least recently used unpinned groups until the low watermark is
   * reached, and no further. False means over the limit with nothing left to evict.
   */
  method EvictForByteLimitIfNeeded(s0: Store, maxBytes: nat, minEviction: nat) returns (s: Store, ok: bool)
    requires StoreOk(s0)
    ensures StoreOk(s) && Evicting(s0, s, Target(maxBytes, minEviction))
    ensures ok <==> maxBytes == 0 || s.totalBytes <= maxBytes
    ensures !ok ==> s.globalLru == []
    ensures WithinBytes(s0, s, maxBytes, minEviction)
  {
    s, ok := s0, true;
    if maxBytes == 0 || s.totalBytes <= maxBytes {
      return;
    }
    var target := Target(maxBytes, minEviction);
    ListsKeptAtFirst(s0);
    while s.totalBytes > target && s.globalLru != []
      invariant StoreOk(s) && Evicting(s0, s, target) && ListsKept(s0, s)
      decreases |s.globalLru|
    {
      s := EvictOldest(s, s0, target);
    }
    ok := s.totalBytes <= maxBytes;
  }

  // ---- Changing a track in place -----------------------------------------------------

  // The same groups, pinned and listed alike, in a track as busy as before.
  ghost predicate SameLists(a: Track, b: Track) {
    && b.groups.Keys == a.groups.Keys
    && (forall g :: g in a.groups ==> b.groups[g].evictable == a.groups[g].evictable)
    && b.groupLru == a.groupLru
    && (CanEvict(a) ==> CanEvict(b))
  }

  function PutTrack(s: Store, n: Name, t: Track, totalBytes: nat): (r: Store)
    requires StoreOk(s) && n in s.tracks && TrackOk(t) && SameLists(s.tracks[n], t)
    requires totalBytes == s.totalBytes - TrackBytes(s.tracks[n]) + TrackBytes(t)
    ensures StoreOk(r) && ChangedIn(s, r, n) && r.tracks[n] == t && r.totalBytes == totalBytes
  {
    PutTrackTracks(s.tracks, n, t);
    PutTrackLists(s, n, t);
    StoreBytesPut(s.tracks, n, t);
    s.(tracks := s.tracks[n := t], totalBytes := totalBytes)
  }

  lemma PutTrackTracks(tracks: map<Name, Track>, n: Name, t: Track)
    requires TracksOk(tracks) && n in tracks && TrackOk(t) && SameLists(tracks[n], t)
    ensures TracksOk(tracks[n := t])
  {
    assert Unpinned(t) == Unpinned(tracks[n]);
  }

  lemma PutTrackLists(s: Store, n: Name, t: Track)
    requires ListsOk(s) && n in s.tracks && SameLists(s.tracks[n], t)
    ensures ListsOk(s.(tracks := s.tracks[n := t]))
  {
    assert AllUnpinned(s.tracks[n := t]) == AllUnpinned(s.tracks);
    assert Idle(s.tracks) <= Idle(s.tracks[n := t]);
  }

  // One group changed size.
  lemma ResizedGroup(a: Track, b: Track, g: Id)
    requires g in a.groups && b.groups.Keys == a.groups.Keys
    requires forall h :: h in a.groups && h != g ==> b.groups[h].totalBytes == a.groups[h].totalBytes
    ensures a.groups[g].totalBytes <= TrackBytes(a)
    ensures TrackBytes(b) == TrackBytes(a) - a.groups[g].totalBytes + b.groups[g].totalBytes
  {
    SumPut(GroupSizes(a.groups), g, b.groups[g].totalBytes);
    assert GroupSizes(b.groups) == GroupSizes(a.groups)[g := b.groups[g].totalBytes];
  }

  // ---- Pinning groups and adding new ones ---------------------------------------------

  // The track with g pinned or not, and its list changed to match.
  function Flagged(t: Track, g: Id, evictable: bool): Track
    requires g in t.groups
  {
    t.(groups := t.groups[g := t.groups[g].(evictable := evictable)],
       groupLru := if evictable then [g] + t.groupLru else Without(t.groupLru, g))
  }

  lemma FlaggedOk(t: Track, g: Id, evictable: bool)
    requires TrackOk(t) && LruOk(t) && g in t.groups && t.groups[g].evictable != evictable
    ensures TrackOk(Flagged(t, g, evictable)) && LruOk(Flagged(t, g, evictable))
  {
    var r := Flagged(t, g, evictable);
    assert forall x: Loc :: HasComplete(r, x) == HasComplete(t, x);
    if evictable {
      assert Unpinned(r) == Unpinned(t) + {g};
      assert g !in Elems(t.groupLru);
      PrependNoDup(g, t.groupLru);
    } else {
      assert Unpinned(r) == Unpinned(t) - {g};
      WithoutElems(t.groupLru, g);
    }
  }

  lemma FlaggedBytes(t: Track, g: Id, evictable: bool)
    requires g in t.groups
    ensures TrackBytes(Flagged(t, g, evictable)) == TrackBytes(t)
  {
    ResizedGroup(t, Flagged(t, g, evictable), g);
  }

  // A group being written leaves both lists.
  function Pin(s: Store, n: Name, g: Id): (r: Store)
    requires StoreOk(s) && n in s.tracks && g in s.tracks[n].groups
    ensures StoreOk(r)
  {
    if !s.tracks[n].groups[g].evictable then s
    else
      PinLists(s, n, g);
      FlaggedOk(s.tracks[n], g, false);
      FlaggedBytes(s.tracks[n], g, false);
      StoreBytesPut(s.tracks, n, Flagged(s.tracks[n], g, false));
      s.(tracks := s.tracks[n := Flagged(s.tracks[n], g, false)], globalLru := Without(s.globalLru, (n, g)))
  }

  lemma PinLists(s: Store, n: Name, g: Id)
    requires ListsOk(s) && n in s.tracks && g in s.tracks[n].groups
    ensures ListsOk(s.(tracks := s.tracks[n := Flagged(s.tracks[n], g, false)], globalLru := Without(s.globalLru, (n, g))))
  {
    var after := s.tracks[n := Flagged(s.tracks[n], g, false)];
    WithoutElems(s.globalLru, (n, g));
    assert AllUnpinned(after) == AllUnpinned(s.tracks) - {(n, g)};
    assert Idle(after) == Idle(s.tracks);
  }

  // A group no longer written comes to the front of both lists.
  function Unpin(s: Store, n: Name, g: Id): (r: Store)
    requires StoreOk(s) && n in s.tracks && g in s.tracks[n].groups
    ensures StoreOk(r)
  {
    if s.tracks[n].groups[g].evictable then s
    else
      UnpinLists(s, n, g);
      FlaggedOk(s.tracks[n], g, true);
      FlaggedBytes(s.tracks[n], g, true);
      StoreBytesPut(s.tracks, n, Flagged(s.tracks[n], g, true));
      s.(tracks := s.tracks[n := Flagged(s.tracks[n], g, true)], globalLru := [(n, g)] + s.globalLru)
  }

  lemma UnpinLists(s: Store, n: Name, g: Id)
    requires ListsOk(s) && n in s.tracks && g in s.tracks[n].groups && !s.tracks[n].groups[g].evictable
    ensures ListsOk(s.(tracks := s.tracks[n := Flagged(s.tracks[n], g, true)], globalLru := [(n, g)] + s.globalLru))
  {
    var after := s.tracks[n := Flagged(s.tracks[n], g, true)];
    assert (n, g) !in Elems(s.globalLru);
    PrependNoDup((n, g), s.globalLru);
    assert AllUnpinned(after) == AllUnpinned(s.tracks) + {(n, g)};
    assert Idle(after) == Idle(s.tracks);
  }

  /** A pinned group is on no list; otherwise the tracks stay as they were. */
  method PinIn(s0: Store, n: Name, g: Id) returns (s: Store)
    requires StoreOk(s0) && n in s0.tracks && g in s0.tracks[n].groups
    ensures StoreOk(s) && n in s.tracks && s.tracks == s0.tracks[n := s.tracks[n]] && s.totalBytes == s0.totalBytes
    ensures s.tracks[n].groups == s0.tracks[n].groups[g := s0.tracks[n].groups[g].(evictable := false)]
    ensures (n, g) !in s.globalLru && s.trackLru == s0.trackLru
    ensures s.globalLru == (if s0.tracks[n].groups[g].evictable then Without(s0.globalLru, (n, g)) else s0.globalLru)
    ensures s.tracks[n] == s0.tracks[n].(groups := s.tracks[n].groups, groupLru := s.tracks[n].groupLru)
  {
    s := Pin(s0, n, g);
    assert (n, g) !in Elems(s.globalLru);
  }

  /** A group no longer pinned is in front of the global list; otherwise the tracks stay as they were. */
  method UnpinIn(s0: Store, n: Name, g: Id) returns (s: Store)
    requires StoreOk(s0) && n in s0.tracks && g in s0.tracks[n].groups
    ensures StoreOk(s) && n in s.tracks && s.tracks == s0.tracks[n := s.tracks[n]] && s.totalBytes == s0.totalBytes
    ensures s.tracks[n].groups == s0.tracks[n].groups[g := s0.tracks[n].groups[g].(evictable := true)]
    ensures s.globalLru == (if s0.tracks[n].groups[g].evictable then [] else [(n, g)]) + s0.globalLru
    ensures s.trackLru == s0.trackLru
    ensures s.tracks[n] == s0.tracks[n].(groups := s.tracks[n].groups, groupLru := s.tracks[n].groupLru)
    ensures s.tracks[n].groupLru == (if s0.tracks[n].groups[g].evictable then [] else [g]) + s0.tracks[n].groupLru
  {
    s := Unpin(s0, n, g);
  }

  // A new group, pinned: it enters the lists when it is unpinned.
  function AddGroup(s: Store, n: Name, g: Id): (r: Store)
    requires StoreOk(s) && n in s.tracks && g !in s.tracks[n].groups
    ensures StoreOk(r)
  {
    var t := WithNewGroup(s.tracks[n], g);
    NewGroupTracks(s.tracks, n, g);
    NewGroupLists(s, n, g);
    TrackBytesPut(s.tracks[n], g, NEW_GROUP);
    StoreBytesPut(s.tracks, n, t);
    s.(tracks := s.tracks[n := t])
  }

  const NEW_GROUP := Group(map[], 0, false, None, 0, false)

  function WithNewGroup(t: Track, g: Id): Track {
    t.(groups := t.groups[g := NEW_GROUP])
  }

  lemma NewGroupTracks(tracks: map<Name, Track>, n: Name, g: Id)
    requires TracksOk(tracks) && n in tracks && g !in tracks[n].groups
    ensures TracksOk(tracks[n := WithNewGroup(tracks[n], g)])
  {
    var t := WithNewGroup(tracks[n], g);
    assert Sizes(NEW_GROUP.objects) == map[];
    assert forall x: Loc :: HasComplete(t, x) == HasComplete(tracks[n], x);
    assert Unpinned(t) == Unpinned(tracks[n]);
  }

  lemma NewGroupLists(s: Store, n: Name, g: Id)
    requires ListsOk(s) && n in s.tracks && g !in s.tracks[n].groups
    ensures ListsOk(s.(tracks := s.tracks[n := WithNewGroup(s.tracks[n], g)]))
  {
    var after := s.tracks[n := WithNewGroup(s.tracks[n], g)];
    assert AllUnpinned(after) == AllUnpinned(s.tracks);
    assert Idle(after) == Idle(s.tracks);
  }

  // ---- Tracks ---------------------------------------------------------------------------

  // A new, empty track outside the track list.
  function AddTrack(s: Store, n: Name): (r: Store)
    requires StoreOk(s) && n !in s.tracks
    ensures StoreOk(r)
  {
    AddTrackLists(s, n);
    EmptyTrackOk();
    StoreBytesPut(s.tracks, n, EMPTY_TRACK);
    s.(tracks := s.tracks[n := EMPTY_TRACK])
  }

  method AddTrackIn(s0: Store, n: Name) returns (s: Store)
    requires StoreOk(s0) && n !in s0.tracks
    ensures StoreOk(s) && s == s0.(tracks := s0.tracks[n := EMPTY_TRACK])
  {
    s := AddTrack(s0, n);
  }

  lemma EmptyTrackOk()
    ensures TrackOk(EMPTY_TRACK) && LruOk(EMPTY_TRACK) && TrackBytes(EMPTY_TRACK) == 0
  {
    assert GroupSizes(EMPTY_TRACK.groups) == map[];
    assert Unpinned(EMPTY_TRACK) == {};
  }

  lemma AddTrackLists(s: Store, n: Name)
    requires ListsOk(s) && n !in s.tracks
    ensures ListsOk(s.(tracks := s.tracks[n := EMPTY_TRACK]))
  {
    assert AllUnpinned(s.tracks[n := EMPTY_TRACK]) == AllUnpinned(s.tracks);
    assert Idle(s.tracks[n := EMPTY_TRACK]) == Idle(s.tracks) + {n};
  }

  // A track with a new number of writers; a busy one leaves the track list, one that
  // becomes idle comes to its front.
  function SetWriters(s: Store, n: Name, writers: nat): (r: Store)
    requires StoreOk(s) && n in s.tracks
    ensures StoreOk(r)
  {
    var t := s.tracks[n].(writers := writers);
    var rest := Without(s.trackLru, n);
    SetWritersTracks(s.tracks, n, writers);
    SetWritersLists(s, n, writers);
    assert GroupSizes(t.groups) == GroupSizes(s.tracks[n].groups);
    StoreBytesPut(s.tracks, n, t);
    s.(tracks := s.tracks[n := t], trackLru := if CanEvict(t) then [n] + rest else rest)
  }

  method WithWriters(s0: Store, n: Name, writers: nat) returns (s: Store)
    requires StoreOk(s0) && n in s0.tracks
    ensures StoreOk(s) && s.tracks == s0.tracks[n := s0.tracks[n].(writers := writers)]
    ensures s.trackLru == (if CanEvict(s.tracks[n]) then [n] else []) + Without(s0.trackLru, n)
    ensures s.globalLru == s0.globalLru && s.totalBytes == s0.totalBytes
    ensures writers > 0 ==> n !in s.trackLru
  {
    WithoutElems(s0.trackLru, n);
    assert n !in Elems(Without(s0.trackLru, n));
    s := SetWriters(s0, n, writers);
  }

  lemma SetWritersTracks(tracks: map<Name, Track>, n: Name, writers: nat)
    requires TracksOk(tracks) && n in tracks
    ensures TracksOk(tracks[n := tracks[n].(writers := writers)])
  {
    var t := tracks[n].(writers := writers);
    assert forall x: Loc :: HasComplete(t, x) == HasComplete(tracks[n], x);
    assert Unpinned(t) == Unpinned(tracks[n]);
  }

  lemma SetWritersLists(s: Store, n: Name, writers: nat)
    requires ListsOk(s) && n in s.tracks
    ensures var t := s.tracks[n].(writers := writers);
      var rest := Without(s.trackLru, n);
      ListsOk(s.(tracks := s.tracks[n := t], trackLru := if CanEvict(t) then [n] + rest else rest))
  {
    var t := s.tracks[n].(writers := writers);
    var rest := Without(s.trackLru, n);
    WithoutElems(s.trackLru, n);
    assert n !in Elems(rest);
    PrependNoDup(n, rest);
    assert AllUnpinned(s.tracks[n := t]) == AllUnpinned(s.tracks);
    assert Idle(s.tracks[n := t]) == if CanEvict(t) then Idle(s.tracks) + {n} else Idle(s.tracks) - {n};
  }

  // Group g is new, and first in the list; a limit that is exceeded costs the oldest
  // unpinned groups, and no more than that takes.
  ghost predicate RoomMade(t0: Track, t: Track, g: Id, maxGroups: nat) {
    && g in t.groups && g !in t0.groups && |t.groupLru| > 0 && t.groupLru[0] == g
    && t.groupLru[1..] <= t0.groupLru
    && (forall h :: h in t.groups && h != g ==> h in t0.groups && t.groups[h] == t0.groups[h])
    && (maxGroups == 0 || |t0.groups| <= maxGroups ==> t.groups.Keys == t0.groups.Keys + {g})
    && (maxGroups > 0 ==> |t.groups| <= maxGroups + 1 || t.groupLru == [g])
    && (|t0.groups| > maxGroups ==> |t.groups| > maxGroups)
  }

  lemma RoomIsMade(t0: Track, room: Track, t: Track, g: Id, maxGroups: nat)
    requires Shrinks(t0, room) && room.groupLru <= t0.groupLru && g !in t0.groups
    requires maxGroups == 0 || |t0.groups| <= maxGroups ==> room == t0
    requires maxGroups > 0 ==> |room.groups| <= maxGroups || room.groupLru == []
    requires |t0.groups| > maxGroups ==> |room.groups| >= maxGroups
    requires t.groups == room.groups[g := NEW_GROUP.(evictable := true)] && t.groupLru == [g] + room.groupLru
    ensures RoomMade(t0, t, g, maxGroups)
  {
    assert t.groups.Keys == room.groups.Keys + {g} && |t.groups| == |t.groups.Keys| == |room.groups| + 1;
  }

  lemma NewIsUnpinned(room: map<Name, Track>, tracks: map<Name, Track>, n: Name, g: Id)
    requires n in room && g !in room[n].groups && n in tracks && tracks == room[n := tracks[n]]
    requires tracks[n].groups == room[n].groups[g := NEW_GROUP.(evictable := true)]
    ensures AllUnpinned(tracks) - {(n, g)} == AllUnpinned(room)
  {
  }

  // Makes room for a group and adds it, unpinned.
  method MakeGroup(s0: Store, n: Name, g: Id, maxGroups: nat) returns (s: Store)
    requires StoreOk(s0) && n in s0.tracks && g !in s0.tracks[n].groups
    ensures StoreOk(s) && n in s.tracks && g in s.tracks[n].groups
    ensures s.tracks[n].groups[g] == NEW_GROUP.(evictable := true)
    ensures |s.globalLru| > 0 && s.globalLru[0] == (n, g) && s.trackLru == s0.trackLru
    ensures s.globalLru[1..] == Kept(s0.globalLru, AllUnpinned(s.tracks) - {(n, g)})
    ensures s.tracks - {n} == s0.tracks - {n} && RoomMade(s0.tracks[n], s.tracks[n], g, maxGroups)
    ensures forall h :: h in s0.tracks[n].groups && !s0.tracks[n].groups[h].evictable ==>
      h in s.tracks[n].groups && s.tracks[n].groups[h] == s0.tracks[n].groups[h]
  {
    var room := EvictOldestGroupsIfNeeded(s0, n, maxGroups);
    assert Shrinks(s0.tracks[n], room.tracks[n]);
    s := AddUnpinned(room, n, g);
    NewIsUnpinned(room.tracks, s.tracks, n, g);
    RoomIsMade(s0.tracks[n], room.tracks[n], s.tracks[n], g, maxGroups);
    PutWithout(room.tracks, n, s.tracks[n]);
  }

  lemma PutTwice<K, V>(m: map<K, V>, k: K, a: V, b: V)
    ensures m[k := a][k := b] == m[k := b]
  {
  }

  lemma PutWithout(tracks: map<Name, Track>, n: Name, t: Track)
    ensures tracks[n := t] - {n} == tracks - {n}
  {
  }

  method AddPinned(s0: Store, n: Name, g: Id) returns (s: Store)
    requires StoreOk(s0) && n in s0.tracks && g !in s0.tracks[n].groups
    ensures StoreOk(s) && n in s.tracks && s.tracks == s0.tracks[n := s.tracks[n]]
    ensures s.tracks[n].groups == s0.tracks[n].groups[g := NEW_GROUP] && s.globalLru == s0.globalLru && s.trackLru == s0.trackLru
    ensures s.tracks[n].groupLru == s0.tracks[n].groupLru
  {
    s := AddGroup(s0, n, g);
  }

  method AddUnpinned(s0: Store, n: Name, g: Id) returns (s: Store)
    requires StoreOk(s0) && n in s0.tracks && g !in s0.tracks[n].groups
    ensures StoreOk(s) && n in s.tracks && s.tracks[n].groupLru == [g] + s0.tracks[n].groupLru
    ensures s.tracks[n].groups == s0.tracks[n].groups[g := NEW_GROUP.(evictable := true)]
    ensures s.tracks == s0.tracks[n := s.tracks[n]] && s.globalLru == [(n, g)] + s0.globalLru && s.trackLru == s0.trackLru
  {
    var added := AddPinned(s0, n, g);
    s := UnpinIn(added, n, g);
    PutTwice(s0.tracks, n, added.tracks[n], s.tracks[n]);
    PutTwice(s0.tracks[n].groups, g, NEW_GROUP, NEW_GROUP.(evictable := true));
  }

  // The tracks once a full cache has given up the oldest idle one, if it has one.
  ghost function WithRoom(s: Store, maxTracks: nat): map<Name, Track> {
    if maxTracks > 0 && |s.tracks| >= maxTracks && s.trackLru != [] then s.tracks - {s.trackLru[|s.trackLru| - 1]} else s.tracks
  }

  // ---- The cache ---------------------------------------------------------------------

  class MoqxCache {
    var store: Store
    const maxTracks: nat
    const maxGroups: nat
    const maxBytes: nat
    const minEviction: nat
    var defaultAge: Option<nat>

    ghost predicate Valid()
      reads this
    {
      StoreOk(store)
    }

    constructor (maxCachedTracks: nat, maxCachedGroups: nat, maxCachedBytes: nat, minEvictionBytes: nat)
      ensures Valid() && store == Store(map[], [], [], 0) && defaultAge == None
      ensures maxTracks == maxCachedTracks && maxGroups == maxCachedGroups
      ensures maxBytes == maxCachedBytes && minEviction == minEvictionBytes
    {
      store, defaultAge := Store(map[], [], [], 0), None;
      maxTracks, maxGroups, maxBytes, minEviction := maxCachedTracks, maxCachedGroups, maxCachedBytes, minEvictionBytes;
      new;
      assert TrackSizes(store.tracks) == map[];
      assert AllUnpinned(store.tracks) == {};
    }

    // A track gets a live writer; a new track may push the oldest idle one out.
    method BeginWriting(n: Name)
      requires Valid()
      modifies this`store
      ensures Valid() && n in store.tracks && store.tracks[n].writers > 0 && n !in store.trackLru
      ensures n in old(store).tracks ==>
        && store.tracks == old(store).tracks[n := old(store).tracks[n].(writers := old(store).tracks[n].writers + 1)]
        && store.trackLru == Without(old(store).trackLru, n)
        && store.globalLru == old(store).globalLru && store.totalBytes == old(store).totalBytes
      ensures n !in old(store).tracks ==>
        && store.tracks[n] == EMPTY_TRACK.(writers := 1)
        && store.tracks == WithRoom(old(store), maxTracks)[n := store.tracks[n]]
    {
      if n !in store.tracks {
        MakeTrack(n);
      }
      var after := WithWriters(store, n, store.tracks[n].writers + 1);
      if n !in old(store).tracks {
        PutTwice(WithRoom(old(store), maxTracks), n, EMPTY_TRACK, EMPTY_TRACK.(writers := 1));
      }
      store := after;
    }

    // A new track, which may push the oldest idle one out.
    method MakeTrack(n: Name)
      requires Valid() && n !in store.tracks
      modifies this`store
      ensures Valid() && store.tracks == WithRoom(old(store), maxTracks)[n := EMPTY_TRACK]
    {
      if |store.tracks| >= maxTracks {
        var _ := EvictOldestTrackIfNeeded();
      }
      var added := AddTrackIn(store, n);
      store := added;
    }

    method EndWriting(n: Name)
      requires Valid() && n in store.tracks && store.tracks[n].writers > 0
      modifies this`store
      ensures Valid()
      ensures store.tracks == old(store).tracks[n := old(store).tracks[n].(writers := old(store).tracks[n].writers - 1)]
      ensures store.trackLru == (if CanEvict(store.tracks[n]) then [n] else []) + Without(old(store).trackLru, n)
      ensures store.globalLru == old(store).globalLru && store.totalBytes == old(store).totalBytes
    {
      var after := WithWriters(store, n, store.tracks[n].writers - 1);
      store := after;
    }

    // True unless the cache is full and every track is busy.
    method EvictOldestTrackIfNeeded() returns (ok: bool)
      requires Valid()
      modifies this`store
      ensures Valid()
      ensures store.tracks.Keys <= old(store).tracks.Keys
      ensures !ok || |old(store).tracks| < maxTracks || maxTracks == 0 ==> store == old(store)
      ensures ok <==> maxTracks == 0 || |old(store).tracks| < maxTracks || old(store).trackLru != []
      ensures maxTracks > 0 && |old(store).tracks| >= maxTracks && ok ==>
        var lru := old(store).trackLru;
        && store.tracks == old(store).tracks - {lru[|lru| - 1]} && |store.tracks| < |old(store).tracks|
        && ListsKept(old(store), store)
    {
      if maxTracks == 0 || |store.tracks| < maxTracks {
        return true;
      }
      if store.trackLru == [] {
        return false;
      }
      var oldest := store.trackLru[|store.trackLru| - 1];
      assert oldest in Elems(store.trackLru);
      var after, _ := EvictTrack(store, oldest);
      assert after.tracks.Keys == store.tracks.Keys - {oldest};
      store := after;
      return true;
    }

    // The group to write into, made room for and listed when it is new.
    method GetOrCreateGroupWithEviction(n: Name, g: Id)
      requires Valid() && n in store.tracks
      modifies this`store
      ensures Valid() && n in store.tracks && g in store.tracks[n].groups
      ensures g in old(store).tracks[n].groups ==> store == old(store)
      ensures g !in old(store).tracks[n].groups ==>
        && RoomMade(old(store).tracks[n], store.tracks[n], g, maxGroups)
        && store.tracks[n].groups[g] == NEW_GROUP.(evictable := true)
        && |store.globalLru| > 0 && store.globalLru[0] == (n, g)
        && store.globalLru[1..] == Kept(old(store).globalLru, AllUnpinned(store.tracks) - {(n, g)})
      ensures store.trackLru == old(store).trackLru
      ensures store.tracks - {n} == old(store).tracks - {n}
      ensures forall h :: h in old(store).tracks[n].groups && !old(store).tracks[n].groups[h].evictable ==>
        h in store.tracks[n].groups && store.tracks[n].groups[h] == old(store).tracks[n].groups[h]
    {
      if g !in store.tracks[n].groups {
        store := MakeGroup(store, n, g, maxGroups);
      }
    }

    method PinGroup(n: Name, g: Id)
      requires Valid() && n in store.tracks && g in store.tracks[n].groups
      modifies this`store
      ensures Valid() && n in store.tracks && g in store.tracks[n].groups
      ensures store.tracks == old(store).tracks[n := store.tracks[n]]
      ensures store.tracks[n].groups == old(store).tracks[n].groups[g := old(store).tracks[n].groups[g].(evictable := false)]
      ensures store.trackLru == old(store).trackLru && store.totalBytes == old(store).totalBytes
      ensures store.globalLru ==
        if old(store).tracks[n].groups[g].evictable then Without(old(store).globalLru, (n, g)) else old(store).globalLru
    {
      var pinned := PinIn(store, n, g);
      store := pinned;
    }

    method UnpinGroup(n: Name, g: Id)
      requires Valid() && n in store.tracks && g in store.tracks[n].groups
      modifies this`store
      ensures Valid() && n in store.tracks && g in store.tracks[n].groups
      ensures store.tracks == old(store).tracks[n := store.tracks[n]]
      ensures store.tracks[n].groups == old(store).tracks[n].groups[g := old(store).tracks[n].groups[g].(evictable := true)]
      ensures store.trackLru == old(store).trackLru && store.totalBytes == old(store).totalBytes
      ensures store.globalLru == (if old(store).tracks[n].groups[g].evictable then [] else [(n, g)]) + old(store).globalLru
    {
      var unpinned := UnpinIn(store, n, g);
      store := unpinned;
    }

    // Brings the cache back within its byte limit; pinned groups are untouched.
    method EvictForBytes() returns (ok: bool)
      requires Valid()
      modifies this`store
      ensures Valid() && Evicting(old(store), store, Target(maxBytes, minEviction))
      ensures WithinBytes(old(store), store, maxBytes, minEviction)
      ensures ok <==> maxBytes == 0 || store.totalBytes <= maxBytes
      ensures !ok ==> store.globalLru == []
    {
      var after;
      after, ok := EvictForByteLimitIfNeeded(store, maxBytes, minEviction);
      store := after;
    }

    // A write, its byte accounting, and the eviction it may call for: `written` is the
    // cache in between. A group being written is pinned, so what was stored in it is
    // there afterwards.
    method CacheObjectAndUpdateBytes(
      n: Name, at: Loc, subgroup: nat, status: Status, ext: GapExtensions,
      payload: Option<nat>, complete: bool, datagram: bool, now: nat
    ) returns (r: Outcome, ghost written: Store)
      requires Valid() && n in store.tracks && at.group in store.tracks[n].groups
      modifies this`store
      ensures Valid() && StoreOk(written) && ChangedIn(old(store), written, n)
      ensures if r.Stored? then WithinBytes(written, store, maxBytes, minEviction) else store == written
      ensures r.Stored? ==>
        WriteStored(old(store).tracks[n], written.tracks[n], at, subgroup, status, payload, complete, datagram, now)
      ensures r.Stored? <==> Acceptable(old(store).tracks[n], at, status, ext, payload, datagram)
      ensures var g := old(store).tracks[n].groups[at.group];
        r.Stored? && !g.evictable ==>
          && n in store.tracks && at.group in store.tracks[n].groups
          && store.tracks[n].groups[at.group].objects ==
             g.objects[at.obj := EntryFor(g, at.obj, subgroup, status, payload, complete, datagram, now)]
      ensures r.Rejected? ==>
        && n in store.tracks && store.tracks == old(store).tracks[n := store.tracks[n]]
        && SameObjects(old(store).tracks[n], store.tracks[n])
    {
      var after;
      after, r := WriteObject(store, n, at, subgroup, status, ext, payload, complete, datagram, now);
      written := after;
      store := after;
      if r.Stored? {
        var _ := EvictForBytes();
        assert n in store.tracks || NonePinned(written.tracks[n]);
      }
    }

    // Streamed payload for an object begun earlier.
    method AppendObjectPayload(n: Name, at: Loc, added: nat, completes: bool) returns (ghost written: Store)
      requires Valid() && n in store.tracks && HasObject(store.tracks[n], at)
      modifies this`store
      ensures Valid() && StoreOk(written) && ChangedIn(old(store), written, n)
      ensures written.totalBytes == old(store).totalBytes + added
      ensures PayloadAppended(old(store).tracks[n], written.tracks[n], at, added, completes)
      ensures WithinBytes(written, store, maxBytes, minEviction)
      ensures var g := old(store).tracks[n].groups[at.group];
        !g.evictable ==>
          && n in store.tracks && HasObject(store.tracks[n], at)
          && var e := store.tracks[n].groups[at.group].objects[at.obj];
             e.size == g.objects[at.obj].size + added && e.complete == (g.objects[at.obj].complete || completes)
    {
      var appended := AppendBytes(store, n, at, added, completes);
      written := appended;
      store := appended;
      var _ := EvictForBytes();
      assert n in store.tracks || NonePinned(appended.tracks[n]);
    }

    // A lookup, which gives back the bytes of an object it finds expired.
    method GetCachedObject(n: Name, at: Loc, now: nat) returns (hit: bool)
      requires Valid()
      modifies this`store
      ensures Valid()
      ensures hit <==>
        && n in old(store).tracks && HasComplete(old(store).tracks[n], at)
        && !Expired(old(store).tracks[n], at, now, defaultAge)
      ensures store ==
        if n in old(store).tracks && HasObject(old(store).tracks[n], at) && Expired(old(store).tracks[n], at, now, defaultAge)
        then ExpireObject(old(store), n, at)
        else old(store)
      ensures n in old(store).tracks && HasObject(old(store).tracks[n], at) && Expired(old(store).tracks[n], at, now, defaultAge) ==>
        ObjectGone(old(store), store, n, at)
    {
      if n !in store.tracks {
        return false;
      }
      var t;
      t, hit := GetCachedObjectMaybe(store.tracks[n], at, now, defaultAge);
      if HasObject(store.tracks[n], at) && !HasObject(t, at) {
        store := ExpireObject(store, n, at);
      }
    }
  }

  lemma WriteKeepsLists(t0: Track, t: Track, at: Loc, e: Entry)
    requires TrackOk(t0) && at.group in t0.groups && SameObjects(Written(t0, at, e, false), t)
    ensures SameLists(t0, t)
    ensures forall g :: g in t0.groups && g != at.group ==> t.groups[g].totalBytes == t0.groups[g].totalBytes
    ensures t.groups[at.group].objects == t0.groups[at.group].objects[at.obj := e]
  {
  }

  // One track changed, and no list.
  ghost predicate ChangedIn(s0: Store, s: Store, n: Name) {
    && n in s.tracks && s.tracks == s0.tracks[n := s.tracks[n]]
    && s.trackLru == s0.trackLru && s.globalLru == s0.globalLru
  }

  method WriteObject(
    s0: Store, n: Name, at: Loc, subgroup: nat, status: Status, ext: GapExtensions,
    payload: Option<nat>, complete: bool, datagram: bool, now: nat
  ) returns (s: Store, r: Outcome)
    requires StoreOk(s0) && n in s0.tracks && at.group in s0.tracks[n].groups
    ensures StoreOk(s) && n in s.tracks && at.group in s.tracks[n].groups
    ensures r.Stored? <==> Acceptable(s0.tracks[n], at, status, ext, payload, datagram)
    ensures s.tracks[n].groups[at.group].evictable == s0.tracks[n].groups[at.group].evictable
    ensures ChangedIn(s0, s, n)
    ensures r.Stored? ==>
      WriteStored(s0.tracks[n], s.tracks[n], at, subgroup, status, payload, complete, datagram, now)
    ensures r.Rejected? ==> SameObjects(s0.tracks[n], s.tracks[n])
    ensures r.Stored? ==>
      var g := s0.tracks[n].groups[at.group];
      s.tracks[n].groups[at.group].objects ==
        g.objects[at.obj := EntryFor(g, at.obj, subgroup, status, payload, complete, datagram, now)]
  {
    var t0 := s0.tracks[n];
    var t;
    t, r := CacheObject(t0, at, subgroup, status, ext, payload, complete, datagram, now);
    if r.Stored? {
      WriteKeepsLists(t0, t, at, EntryFor(t0.groups[at.group], at.obj, subgroup, status, payload, complete, datagram, now));
    }
    ResizedGroup(t0, t, at.group);
    StoreBytesPut(s0.tracks, n, t);
    s := PutTrack(s0, n, t, s0.totalBytes - t0.groups[at.group].totalBytes + t.groups[at.group].totalBytes);
  }

  method AppendBytes(s0: Store, n: Name, at: Loc, added: nat, completes: bool) returns (s: Store)
    requires StoreOk(s0) && n in s0.tracks && HasObject(s0.tracks[n], at)
    ensures StoreOk(s) && ChangedIn(s0, s, n) && HasObject(s.tracks[n], at) && s.totalBytes == s0.totalBytes + added
    ensures PayloadAppended(s0.tracks[n], s.tracks[n], at, added, completes)
    ensures s.tracks[n].groups[at.group].evictable == s0.tracks[n].groups[at.group].evictable
    ensures var before, after := s0.tracks[n].groups[at.group].objects[at.obj], s.tracks[n].groups[at.group].objects[at.obj];
      after.size == before.size + added && after.complete == (before.complete || completes)
  {
    var t := AppendPayload(s0.tracks[n], at, added, completes);
    ResizedGroup(s0.tracks[n], t, at.group);
    s := PutTrack(s0, n, t, s0.totalBytes + added);
  }

  // The object at a location is gone, with its bytes, and nothing else.
  ghost predicate ObjectGone(s: Store, r: Store, n: Name, at: Loc)
    requires n in s.tracks && HasObject(s.tracks[n], at)
  {
    && ChangedIn(s, r, n) && r.totalBytes == s.totalBytes - s.tracks[n].groups[at.group].objects[at.obj].size
    && var groups := s.tracks[n].groups;
    && r.tracks[n].groups.Keys == groups.Keys && r.tracks[n].gaps == s.tracks[n].gaps
    && r.tracks[n].groups[at.group].objects == groups[at.group].objects - {at.obj}
    && forall h :: h in groups && h != at.group ==> r.tracks[n].groups[h] == groups[h]
  }

  function ExpireObject(s: Store, n: Name, at: Loc): (r: Store)
    requires StoreOk(s) && n in s.tracks && HasObject(s.tracks[n], at)
    ensures StoreOk(r) && ObjectGone(s, r, n, at)
  {
    var t := Expire(s.tracks[n], at);
    ResizedGroup(s.tracks[n], t, at.group);
    StoreBytesPut(s.tracks, n, t);
    PutTrack(s, n, t, s.totalBytes - s.tracks[n].groups[at.group].objects[at.obj].size)
  }
}
