/**
 * The ranking of tracks by a property: a sorted map, an index by name with cached
 * ranks, the groups of subscribers by N, and the thresholds that let most updates
 * skip the groups altogether.
 */
module PropertyRankings {
  import opened Common
  import opened RankedLists
  import opened TopNGroups

  datatype RankIndex = RankIndex(key: RankKey, cachedRank: nat)

  type Groups = map<nat, Group>

  // ---- What the fields say about each other ------------------------------------------

  ghost predicate IndexOk(r: Ranking, index: map<TrackName, RankIndex>, cacheValid: bool) {
    && index.Keys == Names(r)
    && forall i :: 0 <= i < |r| ==>
         r[i].name in index && index[r[i].name].key == r[i].key && (cacheValid ==> index[r[i].name].cachedRank == i)
  }

  ghost predicate CountsOk(r: Ranking, counts: map<Session, nat>) {
    forall s :: if s in counts then counts[s] == OwnCount(r, s) > 0 else OwnCount(r, s) == 0
  }

  // Both thresholds bound the ranks that matter to any group.
  ghost predicate SelectionOk(groups: Groups, thresholds: seq<nat>, selection: nat) {
    && (forall i, j :: 0 <= i < j < |thresholds| ==> thresholds[i] <= thresholds[j])
    && (forall n :: n in groups <==> n in thresholds)
    && (forall n :: n in groups ==> n <= selection)
  }

  ghost predicate ExtendedOk(groups: Groups, counts: map<Session, nat>, extended: nat) {
    forall n, s :: n in groups && s in groups[n].sessions && s in counts ==> n + counts[s] <= extended
  }

  // ---- The three properties ------------------------------------------------------------

  // Every group's selected tracks are exactly the first n.
  ghost predicate TopExact(r: Ranking, groups: Groups) {
    forall n :: n in groups ==> Settled(r, n, groups[n])
  }

  // Every session that never published holds exactly the first n tracks.
  ghost predicate ViewsExact(r: Ranking, groups: Groups, published: set<Session>) {
    forall n :: n in groups ==> ViewersSee(Top(r, n), groups[n], published)
  }

  // Selected tracks and viewers are exactly as the ranking says.
  ghost predicate AllExact(r: Ranking, groups: Groups, published: set<Session>) {
    TopExact(r, groups) && ViewsExact(r, groups, published)
  }

  // So does each of them that replays select and evict callbacks alone.
  ghost predicate ReplayersSee(r: Ranking, n: nat, g: Group, published: set<Session>) {
    forall v :: v in g.sessions && v !in published ==> ReplaySees(r, n, g.log, v)
  }

  ghost predicate ReplaysExact(r: Ranking, groups: Groups, published: set<Session>) {
    forall n :: n in groups ==> ReplayersSee(r, n, groups[n], published)
  }

  // Every publisher-subscriber is sent its first n tracks of others.
  ghost predicate PublishersExact(r: Ranking, groups: Groups, publishers: set<Session>) {
    forall n :: n in groups ==> PublishersServed(r, n, groups[n], publishers)
  }

  // ---- The fast path ---------------------------------------------------------------------

  // A move between these ranks is on one side of every group's cut, and below the part
  // of the ranking that any publisher-subscriber looks at.
  ghost predicate Harmless(groups: Groups, counts: map<Session, nat>, oldRank: nat, newRank: nat) {
    && (forall n :: n in groups ==> (oldRank < n <==> newRank < n))
    && (forall n, s :: n in groups && s in groups[n].sessions && s in counts ==>
          n + counts[s] <= oldRank && n + counts[s] <= newRank)
  }

  // The largest n plus own tracks over all publisher-subscribers, or `least` if that is larger.
  method MaxExtended(groups: Groups, counts: map<Session, nat>, least: nat) returns (m: nat)
    ensures m >= least
    ensures forall n, s :: n in groups && s in groups[n].sessions && s in counts ==> n + counts[s] <= m
    ensures m == least || exists n, s :: n in groups && s in groups[n].sessions && s in counts && n + counts[s] == m
  {
    m := least;
    var todo := groups.Keys;
    while todo != {}
      invariant todo <= groups.Keys && m >= least
      invariant forall n, s :: n in groups && n !in todo && s in groups[n].sessions && s in counts ==> n + counts[s] <= m
      invariant m == least || exists n, s :: n in groups && s in groups[n].sessions && s in counts && n + counts[s] == m
    {
      var n :| n in todo;
      todo := todo - {n};
      var sessions := groups[n].sessions.Keys;
      while sessions != {}
        invariant sessions <= groups[n].sessions.Keys && m >= least
        invariant forall k, s :: k in groups && k !in todo && k != n && s in groups[k].sessions && s in counts ==> k + counts[s] <= m
        invariant forall s :: s in groups[n].sessions && s !in sessions && s in counts ==> n + counts[s] <= m
        invariant m == least || exists k, s :: k in groups && s in groups[k].sessions && s in counts && k + counts[s] == m
      {
        var s :| s in sessions;
        sessions := sessions - {s};
        if s in counts && n + counts[s] > m {
          m := n + counts[s];
        }
      }
    }
  }

  // The largest n of all groups, and all n in ascending order.
  method SortThresholds(groups: Groups) returns (thresholds: seq<nat>, maxN: nat)
    ensures SelectionOk(groups, thresholds, maxN)
    ensures maxN == 0 || maxN in groups
  {
    thresholds, maxN := [], 0;
    var todo := groups.Keys;
    while todo != {}
      invariant todo <= groups.Keys
      invariant forall i, j :: 0 <= i < j < |thresholds| ==> thresholds[i] <= thresholds[j]
      invariant forall n :: n in thresholds <==> n in groups && n !in todo
      invariant forall n :: n in thresholds ==> n <= maxN
      invariant maxN == 0 || maxN in groups
    {
      var n :| n in todo;
      var i := UpperBound(thresholds, n);
      thresholds := thresholds[..i] + [n] + thresholds[i..];
      maxN := if n > maxN then n else maxN;
      todo := todo - {n};
    }
  }

  method MaxN(groups: Groups) returns (maxN: nat)
    ensures forall n :: n in groups ==> n <= maxN
    ensures maxN == 0 || maxN in groups
  {
    maxN := 0;
    var todo := groups.Keys;
    while todo != {}
      invariant todo <= groups.Keys
      invariant forall n :: n in groups && n !in todo ==> n <= maxN
      invariant maxN == 0 || maxN in groups
    {
      var n :| n in todo;
      maxN := if n > maxN then n else maxN;
      todo := todo - {n};
    }
  }

  // The first position whose value exceeds x.
  method UpperBound(a: seq<nat>, x: nat) returns (p: nat)
    requires forall i, j :: 0 <= i < j < |a| ==> a[i] <= a[j]
    ensures p <= |a|
    ensures forall i :: 0 <= i < p ==> a[i] <= x
    ensures forall i :: p <= i < |a| ==> a[i] > x
  {
    p := 0;
    var hi := |a|;
    while p < hi
      invariant 0 <= p <= hi <= |a|
      invariant forall i :: 0 <= i < p ==> a[i] <= x
      invariant forall i :: hi <= i < |a| ==> a[i] > x
    {
      var mid := (p + hi) / 2;
      if a[mid] <= x {
        p := mid + 1;
      } else {
        hi := mid;
      }
    }
  }

  // A rank lies within the first n, or within the window of a publisher-subscriber of group n.
  ghost predicate InWindow(g: Group, counts: map<Session, nat>, n: nat, rank: nat) {
    rank < n || exists s :: s in g.sessions && s in counts && rank < n + counts[s]
  }

  // The groups have to be looked at: a rank is below the stored thresholds, and the move
  // crosses the outermost cut or that of a group, or somebody publishes and a rank is in
  // the window of a group.
  ghost predicate Crosses(groups: Groups, counts: map<Session, nat>, selection: nat, extended: nat, from: nat, to: nat) {
    && (from < selection || from < extended || to < selection || to < extended)
    && exists n :: n in groups && Touches(groups[n], counts, n, selection, from, to)
  }

  ghost predicate Touches(g: Group, counts: map<Session, nat>, n: nat, selection: nat, from: nat, to: nat) {
    || (from < selection) != (to < selection)
    || (from < n) != (to < n)
    || (counts != map[] && (InWindow(g, counts, n, from) || InWindow(g, counts, n, to)))
  }

  /** False only for a harmless move, as long as the stored thresholds are bounds. */
  method CrossesThreshold(
    groups: Groups, counts: map<Session, nat>, thresholds: seq<nat>, selection: nat, extended: nat, oldRank: nat, newRank: nat
  ) returns (crosses: bool)
    requires SelectionOk(groups, thresholds, selection) && ExtendedOk(groups, counts, extended)
    ensures !crosses ==> Harmless(groups, counts, oldRank, newRank)
    ensures crosses <==> Crosses(groups, counts, selection, extended, oldRank, newRank)
  {
    var threshold := if selection > extended then selection else extended;
    if groups == map[] || (oldRank >= threshold && newRank >= threshold) {
      return false;
    }
    ghost var any :| any in groups;
    var minRank := if oldRank < newRank then oldRank else newRank;
    var maxRank := if oldRank < newRank then newRank else oldRank;
    if (oldRank < selection) != (newRank < selection) {
      assert Touches(groups[any], counts, any, selection, oldRank, newRank);
      return true;
    }
    var p := UpperBound(thresholds, minRank);
    if p < |thresholds| && thresholds[p] <= maxRank {
      assert thresholds[p] in thresholds && Touches(groups[thresholds[p]], counts, thresholds[p], selection, oldRank, newRank);
      return true;
    }
    if counts != map[] {
      crosses := InAnyWindow(groups, counts, minRank, maxRank);
      return;
    }
    return false;
  }

  // One of two ranks is in the window of some group.
  method InAnyWindow(groups: Groups, counts: map<Session, nat>, a: nat, b: nat) returns (within: bool)
    ensures within <==> exists n :: n in groups && (InWindow(groups[n], counts, n, a) || InWindow(groups[n], counts, n, b))
  {
    var maxN := MaxN(groups);
    var window := MaxExtended(groups, counts, maxN);
    within := a < window || b < window;
    if within && window == maxN {
      assert InWindow(groups[maxN], counts, maxN, a) || InWindow(groups[maxN], counts, maxN, b);
    }
  }

  // A track of another publisher joins the tracks of others.
  lemma InsertOther(r: Ranking, j: nat, e: Ranked, s: Session)
    requires j <= |r| && e.publisher != s
    ensures Names(NonSelf(InsertAt(r, j, e), s)) == Names(NonSelf(r, s)) + {e.name}
  {
    var a, b := r[..j], r[j..];
    calc {
      NonSelf(InsertAt(r, j, e), s);
      { NonSelfAppend(a + [e], b, s); }
      NonSelf(a + [e], s) + NonSelf(b, s);
      { NonSelfAppend(a, [e], s); assert [e][1..] == [] && NonSelf([e], s) == [e]; }
      NonSelf(a, s) + [e] + NonSelf(b, s);
    }
    NonSelfAppend(a, b, s);
    assert a + b == r;
    NamesAppend(NonSelf(a, s) + [e], NonSelf(b, s));
    NamesAppend(NonSelf(a, s), [e]);
    NamesAppend(NonSelf(a, s), NonSelf(b, s));
    NamesOne(e);
  }

  // The tracks of others are the same set wherever a track moves to.
  lemma MoveKeepsOthers(before: Ranking, r: Ranking, i: nat, j: nat, s: Session)
    requires IsMove(before, r, i, j)
    ensures Names(NonSelf(r, s)) == Names(NonSelf(before, s))
  {
    var m := RemoveAt(before, i);
    RemoveThenInsert(before, i);
    if r[j].publisher == s {
      NonSelfOwnMove(before, i, j, r[j]);
    } else {
      InsertOther(m, j, r[j], s);
      InsertOther(m, i, before[i], s);
    }
  }

  /** What a publisher-subscriber is sent does not change with a move below its window. */
  lemma MoveBelowWindow(before: Ranking, r: Ranking, i: nat, j: nat, s: Session, n: nat)
    requires IsMove(before, r, i, j)
    requires n + OwnCount(before, s) <= i && n + OwnCount(before, s) <= j
    ensures Wanted(r, s, n) == Wanted(before, s, n)
  {
    if n == 0 {
      MoveKeepsOthers(before, r, i, j, s);
    } else {
      var k := if i < j then i else j;
      assert r[..k] == before[..k];
      PersonalTopPrefix(before, r, s, n, k);
    }
  }

  /** The fast path is sound: a harmless move changes nothing any group shows. */
  lemma HarmlessMove(before: Ranking, r: Ranking, i: nat, j: nat, groups: Groups, counts: map<Session, nat>)
    requires IsMove(before, r, i, j) && CountsOk(before, counts) && Harmless(groups, counts, i, j)
    ensures forall n :: n in groups ==> Top(r, n) == Top(before, n)
    ensures forall n, s :: n in groups && s in groups[n].sessions && s in counts ==>
      Wanted(r, s, n) == Wanted(before, s, n)
  {
    forall n | n in groups ensures Top(r, n) == Top(before, n) {
      TopMove(before, i, j, r[j], n);
    }
    forall n, s | n in groups && s in groups[n].sessions && s in counts ensures Wanted(r, s, n) == Wanted(before, s, n) {
      MoveBelowWindow(before, r, i, j, s, n);
    }
  }

  /** What a publisher is sent does not change when one of its own tracks moves. */
  lemma OwnMove(before: Ranking, r: Ranking, i: nat, j: nat, n: nat)
    requires IsMove(before, r, i, j)
    ensures Wanted(r, r[j].publisher, n) == Wanted(before, r[j].publisher, n)
  {
    NonSelfOwnMove(before, i, j, r[j]);
  }

  // A removed track is not wanted by anyone.
  /** After a removal a publisher-subscriber's tracks are out of date exactly if it held the removed one. */
  lemma WantedAfterRemove(before: Ranking, i: nat, s: Session, n: nat)
    requires Distinct(before) && i < |before|
    ensures Wanted(RemoveAt(before, i), s, n) == Wanted(before, s, n) <==> before[i].name !in Wanted(before, s, n)
  {
    RemovedIsUnwanted(before, i, s, n);
    if before[i].publisher == s {
      RemoveThenInsert(before, i);
      NonSelfOwn(RemoveAt(before, i), i, before[i]);
    } else {
      RemoveOther(before, i, s, n);
    }
  }

  // Removing a track of another: it leaves the list of others at its own place there.
  lemma RemoveOther(before: Ranking, i: nat, s: Session, n: nat)
    requires Distinct(before) && i < |before| && before[i].publisher != s
    ensures before[i].name !in Wanted(before, s, n) ==> Wanted(RemoveAt(before, i), s, n) == Wanted(before, s, n)
  {
    var a, e, b := before[..i], before[i], before[i + 1..];
    var k := |NonSelf(a, s)|;
    assert before == a + [e] + b;
    NonSelfAppend(a + [e], b, s);
    NonSelfAppend(a, [e], s);
    NonSelfAppend(a, b, s);
    assert [e][1..] == [];
    assert NonSelf(before, s)[k] == e;
    assert RemoveAt(NonSelf(before, s), k) == NonSelf(a + b, s);
    NonSelfDistinct(before, s);
    if n > 0 {
      InTop(NonSelf(before, s), k, n);
      TopRemove(NonSelf(before, s), k, n);
    } else {
      assert e.name in Names(NonSelf(before, s));
    }
  }

  // ---- All groups -------------------------------------------------------------------------

  ghost predicate SameSessions(groups0: Groups, groups: Groups) {
    && groups.Keys == groups0.Keys
    && forall n :: n in groups ==> groups[n].sessions.Keys == groups0[n].sessions.Keys
  }

  // Callbacks are only ever added.
  ghost predicate LogsGrow(groups0: Groups, groups: Groups) {
    forall n :: n in groups0 && n in groups ==> groups0[n].log <= groups[n].log
  }

  ghost predicate LogsContinue(groups0: Groups, groups: Groups) {
    forall n :: n in groups0 && n in groups ==> Continues(groups0[n].log, groups[n].log)
  }

  // A track ended in every group.
  ghost predicate LogsEnd(groups0: Groups, groups: Groups, x: TrackName) {
    forall n :: n in groups0 && n in groups ==> Continues(groups0[n].log + [End(x)], groups[n].log)
  }

  // No viewer is told to drop anything.
  ghost predicate AllReplaysGrow(groups0: Groups, groups: Groups, publishers: set<Session>) {
    forall n :: n in groups0 && n in groups ==> ReplaysGrow(groups0[n], groups[n], publishers)
  }

  lemma LogsEndGrow(groups0: Groups, groups: Groups, x: TrackName)
    requires LogsEnd(groups0, groups, x)
    ensures LogsGrow(groups0, groups)
  {
    forall n | n in groups0 && n in groups ensures groups0[n].log <= groups[n].log {
      assert groups0[n].log <= groups0[n].log + [End(x)];
    }
  }

  // After a registration at a rank: below the first n, nothing went to anyone but publishers.
  ghost predicate LogsOfEntry(groups0: Groups, groups: Groups, rank: nat, publishers: set<Session>) {
    && LogsContinue(groups0, groups)
    && forall n :: n in groups0 && n in groups && rank >= n ==> SentTo(groups0[n].log, groups[n].log, publishers)
  }

  // Exactness carries over from one ranking to the next.
  ghost predicate AllFollow(before: Ranking, r: Ranking, groups0: Groups, groups: Groups, publishers: set<Session>) {
    forall n :: n in groups ==> n in groups0 && Follows(before, r, n, groups0[n], groups[n], publishers)
  }

  lemma FollowingIsExact(before: Ranking, r: Ranking, groups0: Groups, groups: Groups, publishers: set<Session>, published: set<Session>)
    requires SameSessions(groups0, groups) && AllFollow(before, r, groups0, groups, publishers)
    requires TopExact(before, groups0) && publishers <= published
    ensures TopExact(r, groups)
    ensures ViewsExact(before, groups0, published) ==> ViewsExact(r, groups, published)
  {
    if ViewsExact(before, groups0, published) {
      forall n | n in groups ensures ViewersSee(Top(r, n), groups[n], published) {
        assert ViewersSee(Top(before, n), groups0[n], published);
      }
    }
  }

  ghost predicate AllReconciled(groups0: Groups, groups: Groups, s: Session) {
    forall n :: n in groups0 && n in groups ==> Reconciled(groups0[n], groups[n], s)
  }

  // A session that has just published is reconciled wherever it subscribes.
  method ReconcilePublisherInAllGroups(r: Ranking, groups0: Groups, s: Session) returns (groups: Groups)
    requires Sorted(r) && Distinct(r)
    ensures SameSessions(groups0, groups)
    ensures AllReconciled(groups0, groups, s)
    ensures forall n :: n in groups ==> Upgraded(r, n, groups0[n], groups[n], s)
  {
    groups := groups0;
    var todo := groups0.Keys;
    while todo != {}
      invariant todo <= groups0.Keys
      invariant SameSessions(groups0, groups)
      invariant forall n :: n in todo ==> groups[n] == groups0[n]
      invariant forall n :: n in groups && n !in todo ==>
        Reconciled(groups0[n], groups[n], s) && Upgraded(r, n, groups0[n], groups[n], s)
    {
      var n :| n in todo;
      var g := UpgradeInGroup(r, n, groups[n], s);
      groups := groups[n := g];
      todo := todo - {n};
    }
  }

  // What a registration does to group n.
  ghost predicate RegisteredIn(
    before: Ranking, r: Ranking, n: nat, publishers: set<Session>, g0: Group, g: Group, rank: nat, limit: nat
  ) {
    && PublishersServed(r, n, g, publishers) && (limit == 0 ==> Follows(before, r, n, g0, g, publishers))
    && Continues(g0.log, g.log) && (rank >= n ==> SentTo(g0.log, g.log, publishers))
    && rank < |r| && RegisterTold(r, n, publishers, g0, g, rank, limit)
    && RegisterShown(r, n, publishers, g0, g, rank, limit)
  }

  ghost predicate AllRegisterShown(
    r: Ranking, publishers: set<Session>, groups0: Groups, groups: Groups, rank: nat, limit: nat
  )
    requires rank < |r|
  {
    forall n :: n in groups0 && n in groups ==> RegisterShown(r, n, publishers, groups0[n], groups[n], rank, limit)
  }

  method RegisterInGroups(
    ghost before: Ranking, r: Ranking, publishers: set<Session>, groups0: Groups, rank: nat, limit: nat
  ) returns (groups: Groups)
    requires Sorted(r) && Distinct(r) && Distinct(before)
    requires rank <= |before| && rank < |r| && New(before, r[rank]) && r == InsertAt(before, rank, r[rank])
    ensures SameSessions(groups0, groups)
    ensures PublishersExact(r, groups, publishers)
    ensures limit == 0 ==> AllFollow(before, r, groups0, groups, publishers)
    ensures LogsOfEntry(groups0, groups, rank, publishers)
    ensures forall n :: n in groups ==> RegisterTold(r, n, publishers, groups0[n], groups[n], rank, limit)
    ensures AllRegisterShown(r, publishers, groups0, groups, rank, limit)
  {
    groups := groups0;
    var todo := groups0.Keys;
    while todo != {}
      invariant todo <= groups0.Keys && SameSessions(groups0, groups)
      invariant forall n :: n in todo ==> groups[n] == groups0[n]
      invariant forall n :: n in groups && n !in todo ==>
        RegisteredIn(before, r, n, publishers, groups0[n], groups[n], rank, limit)
    {
      var n :| n in todo;
      var g := RegisterInGroup(before, r, n, publishers, groups[n], rank, limit);
      groups := groups[n := g];
      todo := todo - {n};
    }
  }

  // What a move does to group n.
  ghost predicate MovedIn(
    before: Ranking, r: Ranking, n: nat, publishers: set<Session>, g0: Group, g: Group, from: nat, to: nat, limit: nat
  )
    requires to < |r|
  {
    && MoveServed(r, n, g0, g, publishers, r[to].publisher) && (limit == 0 ==> Follows(before, r, n, g0, g, publishers))
    && Continues(g0.log, g.log) && MoveTold(r, n, publishers, g0, g, from, to, limit)
    && MoveShown(r, n, publishers, g0, g, from, to, limit)
  }

  ghost predicate AllMoveShown(
    r: Ranking, publishers: set<Session>, groups0: Groups, groups: Groups, from: nat, to: nat, limit: nat
  )
    requires to < |r|
  {
    forall n :: n in groups0 && n in groups ==> MoveShown(r, n, publishers, groups0[n], groups[n], from, to, limit)
  }

  ghost predicate AllMoveTold(
    r: Ranking, publishers: set<Session>, groups0: Groups, groups: Groups, from: nat, to: nat, limit: nat
  )
    requires to < |r|
  {
    forall n :: n in groups0 && n in groups ==> MoveTold(r, n, publishers, groups0[n], groups[n], from, to, limit)
  }

  lemma MovedServes(
    before: Ranking, r: Ranking, i: nat, j: nat, n: nat, publishers: set<Session>, g0: Group, g: Group
  )
    requires IsMove(before, r, i, j) && MoveServed(r, n, g0, g, publishers, r[j].publisher)
    ensures PublishersServed(before, n, g0, publishers) ==> PublishersServed(r, n, g, publishers)
  {
    OwnMove(before, r, i, j, n);
  }

  method RecomputeTopNGroups(
    ghost before: Ranking, r: Ranking, publishers: set<Session>, groups0: Groups, oldRank: nat, newRank: nat, limit: nat
  ) returns (groups: Groups)
    requires IsMove(before, r, oldRank, newRank)
    ensures SameSessions(groups0, groups)
    ensures PublishersExact(before, groups0, publishers) ==> PublishersExact(r, groups, publishers)
    ensures limit == 0 ==> AllFollow(before, r, groups0, groups, publishers)
    ensures LogsContinue(groups0, groups) && AllMoveTold(r, publishers, groups0, groups, oldRank, newRank, limit)
    ensures AllMoveShown(r, publishers, groups0, groups, oldRank, newRank, limit)
  {
    groups := groups0;
    var todo := groups0.Keys;
    while todo != {}
      invariant todo <= groups0.Keys && SameSessions(groups0, groups)
      invariant forall n :: n in todo ==> groups[n] == groups0[n]
      invariant forall n :: n in groups && n !in todo ==>
        MovedIn(before, r, n, publishers, groups0[n], groups[n], oldRank, newRank, limit)
    {
      var n :| n in todo;
      var g := RecomputeGroup(before, r, n, publishers, groups[n], oldRank, newRank, limit);
      groups := groups[n := g];
      todo := todo - {n};
    }
    forall n | n in groups
      ensures PublishersServed(before, n, groups0[n], publishers) ==> PublishersServed(r, n, groups[n], publishers)
    {
      MovedServes(before, r, oldRank, newRank, n, publishers, groups0[n], groups[n]);
    }
  }

  // A removal looked at every publisher-subscriber of group n, because another track
  // took the free place.
  predicate Refilled(rank: nat, n: nat, left: nat) {
    rank < n <= left
  }

  // What a removal does to group n.
  ghost predicate RemovedIn(
    before: Ranking, rank: nat, r: Ranking, n: nat, publishers: set<Session>, g0: Group, g: Group, x: TrackName, limit: nat
  ) {
    && Continues(g0.log + [End(x)], g.log) && ReplaysGrow(g0, g, publishers) && RemovedFrom(r, n, publishers, g0, g, x)
    && (limit == 0 ==> Follows(before, r, n, g0, g, publishers))
    && (limit == 0 && Settled(before, n, g0) ==>
          if Refilled(rank, n, |r|) then PublishersServed(r, n, g, publishers) else g.sessions == g0.sessions)
  }

  ghost predicate AllRemovedFrom(r: Ranking, publishers: set<Session>, groups0: Groups, groups: Groups, x: TrackName) {
    forall n :: n in groups0 && n in groups ==> RemovedFrom(r, n, publishers, groups0[n], groups[n], x)
  }

  method RemoveFromGroups(
    ghost before: Ranking, ghost rank: nat, r: Ranking, publishers: set<Session>, groups0: Groups, x: TrackName, limit: nat
  ) returns (groups: Groups)
    requires Sorted(r) && Distinct(r) && Distinct(before)
    requires rank < |before| && r == RemoveAt(before, rank) && x == before[rank].name
    ensures SameSessions(groups0, groups)
    ensures limit == 0 ==> AllFollow(before, r, groups0, groups, publishers)
    ensures limit == 0 && TopExact(before, groups0) ==>
      forall n :: n in groups ==>
        if Refilled(rank, n, |r|) then PublishersServed(r, n, groups[n], publishers)
        else groups[n].sessions == groups0[n].sessions
    ensures LogsEnd(groups0, groups, x) && AllReplaysGrow(groups0, groups, publishers)
    ensures AllRemovedFrom(r, publishers, groups0, groups, x)
  {
    groups := groups0;
    var todo := groups0.Keys;
    while todo != {}
      invariant todo <= groups0.Keys && SameSessions(groups0, groups)
      invariant forall n :: n in todo ==> groups[n] == groups0[n]
      invariant forall n :: n in groups && n !in todo ==>
        RemovedIn(before, rank, r, n, publishers, groups0[n], groups[n], x, limit)
    {
      var n :| n in todo;
      var g := RemoveFromGroup(before, rank, r, n, publishers, groups[n], x, limit);
      groups := groups[n := g];
      todo := todo - {n};
    }
  }

  // What a sweep does to group n.
  ghost predicate SweptIn(
    r: Ranking, n: nat, publishers: set<Session>, g0: Group, g: Group, idle: TrackName -> bool
  ) {
    && (PublishersServed(r, n, g0, publishers) ==> PublishersServed(r, n, g, publishers))
    && Continues(g0.log, g.log) && (QueueOk(g0) ==> QueueOk(g) && BusyStay(g0, g, idle) && Swept(r, g0, g, idle))
    && ((forall x :: x in SelectedIn(g0) ==> !idle(x)) ==> g == g0)
  }

  ghost predicate AllSwept(r: Ranking, publishers: set<Session>, groups0: Groups, groups: Groups, idle: TrackName -> bool) {
    forall n :: n in groups0 && n in groups ==> SweptIn(r, n, publishers, groups0[n], groups[n], idle)
  }

  method SweepGroups(r: Ranking, publishers: set<Session>, groups0: Groups, idle: TrackName -> bool, limit: nat)
    returns (groups: Groups)
    requires Sorted(r) && Distinct(r)
    ensures SameSessions(groups0, groups)
    ensures PublishersExact(r, groups0, publishers) ==> PublishersExact(r, groups, publishers)
    ensures LogsContinue(groups0, groups)
    ensures AllSwept(r, publishers, groups0, groups, idle)
  {
    groups := groups0;
    var todo := groups0.Keys;
    while todo != {}
      invariant todo <= groups0.Keys && SameSessions(groups0, groups)
      invariant forall n :: n in todo ==> groups[n] == groups0[n]
      invariant forall n :: n in groups && n !in todo ==> SweptIn(r, n, publishers, groups0[n], groups[n], idle)
    {
      var n :| n in todo;
      var g := SweepGroup(r, n, publishers, groups[n], idle, limit);
      groups := groups[n := g];
      todo := todo - {n};
    }
  }

  // ---- The rank cache ------------------------------------------------------------------------

  method RebuildRankCache(r: Ranking, index0: map<TrackName, RankIndex>) returns (index: map<TrackName, RankIndex>)
    requires Distinct(r) && IndexOk(r, index0, false)
    ensures IndexOk(r, index, true)
  {
    index := index0;
    for rank := 0 to |r|
      invariant IndexOk(r, index, false)
      invariant forall i :: 0 <= i < rank ==> index[r[i].name].cachedRank == i
    {
      index := index[r[rank].name := index[r[rank].name].(cachedRank := rank)];
    }
  }

  lemma InsertIndexOk(r: Ranking, index: map<TrackName, RankIndex>, j: nat, e: Ranked)
    requires IndexOk(r, index, false) && j <= |r| && New(r, e)
    ensures IndexOk(InsertAt(r, j, e), index[e.name := RankIndex(e.key, 0)], false)
  {
    var r' := InsertAt(r, j, e);
    InsertNames(r, j, e);
    forall i | 0 <= i < |r'|
      ensures var after := index[e.name := RankIndex(e.key, 0)]; r'[i].name in after && after[r'[i].name].key == r'[i].key
    {
      InsertAtIndex(r, j, e, i);
      assert r'[i].name in Names(r');
    }
  }

  lemma RemoveIndexOk(r: Ranking, index: map<TrackName, RankIndex>, i: nat)
    requires IndexOk(r, index, false) && Distinct(r) && i < |r|
    ensures IndexOk(RemoveAt(r, i), index - {r[i].name}, false)
  {
    var r' := RemoveAt(r, i);
    RemoveNames(r, i);
    forall k | 0 <= k < |r'|
      ensures var after := index - {r[i].name}; r'[k].name in after && after[r'[k].name].key == r'[k].key
    {
      RemoveAtIndex(r, i, k);
      assert r'[k].name in Names(r');
    }
  }

  ghost predicate RankingOk(r: Ranking, nextSeq: nat) {
    Sorted(r) && Distinct(r) && forall i :: 0 <= i < |r| ==> r[i].key.arrival < nextSeq
  }

  // A key changes: the entry goes to the place its new key has among the others.
  lemma UpdateIsMove(before: Ranking, i: nat, key: RankKey, nextSeq: nat)
    requires RankingOk(before, nextSeq) && i < |before| && key.arrival == before[i].key.arrival
    ensures var m := RemoveAt(before, i);
      var j := Position(m, key);
      var r := InsertAt(m, j, before[i].(key := key));
      && j < |before| && IsMove(before, r, i, j) && RankingOk(r, nextSeq) && r[j] == before[i].(key := key)
  {
    var m := RemoveAt(before, i);
    var e := before[i].(key := key);
    var j := Position(m, key);
    RemoveKeepsOrder(before, i);
    InsertKeepsOrder(m, e);
    InsertKeepsDistinct(m, j, e);
    MovedArrivals(before, i, j, e, nextSeq);
    InsertAtIndex(m, j, e, j);
  }

  lemma MovedArrivals(before: Ranking, i: nat, j: nat, e: Ranked, nextSeq: nat)
    requires i < |before| && j < |before| && e.key.arrival < nextSeq
    requires forall k :: 0 <= k < |before| ==> before[k].key.arrival < nextSeq
    ensures forall k :: 0 <= k < |before| ==> InsertAt(RemoveAt(before, i), j, e)[k].key.arrival < nextSeq
  {
    var m := RemoveAt(before, i);
    forall k | 0 <= k < |before| ensures InsertAt(m, j, e)[k].key.arrival < nextSeq {
      InsertAtIndex(m, j, e, k);
      if k != j {
        RemoveAtIndex(before, i, if k < j then k else k - 1);
      }
    }
  }

  function CountUp(counts: map<Session, nat>, s: Session): map<Session, nat> {
    counts[s := if s in counts then counts[s] + 1 else 1]
  }

  function CountDown(counts: map<Session, nat>, s: Session): map<Session, nat>
    requires s in counts && counts[s] > 0
  {
    if counts[s] == 1 then counts - {s} else counts[s := counts[s] - 1]
  }

  lemma InsertCountsOk(r: Ranking, counts: map<Session, nat>, j: nat, e: Ranked)
    requires CountsOk(r, counts) && j <= |r|
    ensures CountsOk(InsertAt(r, j, e), CountUp(counts, e.publisher))
  {
    forall s ensures OwnCount(InsertAt(r, j, e), s) == OwnCount(r, s) + if e.publisher == s then 1 else 0 {
      OwnCountInsert(r, j, e, s);
    }
  }

  lemma RemoveCountsOk(r: Ranking, counts: map<Session, nat>, i: nat)
    requires CountsOk(r, counts) && i < |r|
    ensures var s := r[i].publisher;
      && s in counts && counts[s] > 0
      && CountsOk(RemoveAt(r, i), CountDown(counts, s))
  {
    var p := r[i].publisher;
    OwnCountRemove(r, i, p);
    assert OwnCount(r, p) > 0;
    forall s ensures OwnCount(RemoveAt(r, i), s) == OwnCount(r, s) - if p == s then 1 else 0 {
      OwnCountRemove(r, i, s);
    }
  }

  // ---- The ranking with its index and counts ------------------------------------------------

  datatype Standing = Standing(
    ranked: Ranking, index: map<TrackName, RankIndex>, cacheValid: bool, counts: map<Session, nat>, nextSeq: nat)

  ghost predicate StandingOk(s: Standing) {
    && RankingOk(s.ranked, s.nextSeq)
    && IndexOk(s.ranked, s.index, s.cacheValid)
    && CountsOk(s.ranked, s.counts)
  }

  // The position of a track, from the cache or after rebuilding it.
  method GetCachedRank(s0: Standing, x: TrackName) returns (s: Standing, rank: nat)
    requires StandingOk(s0) && x in s0.index
    ensures StandingOk(s) && s.ranked == s0.ranked && s.counts == s0.counts && s.index.Keys == s0.index.Keys
    ensures rank < |s.ranked| && s.ranked[rank].name == x && s.cacheValid
  {
    s := s0;
    if !s.cacheValid {
      var index := RebuildRankCache(s.ranked, s.index);
      s := s.(index := index, cacheValid := true);
    }
    assert x in Names(s.ranked);
    rank := s.index[x].cachedRank;
  }

  lemma NotRanked(s: Standing, e: Ranked)
    requires StandingOk(s) && e.name !in s.index && e.key.arrival == s.nextSeq
    ensures New(s.ranked, e)
  {
    forall i | 0 <= i < |s.ranked| ensures s.ranked[i].name != e.name {
      assert s.ranked[i].name in Names(s.ranked);
    }
  }

  lemma InsertRankingOk(r: Ranking, nextSeq: nat, e: Ranked)
    requires RankingOk(r, nextSeq) && New(r, e) && e.key.arrival == nextSeq
    ensures RankingOk(InsertAt(r, Position(r, e.key), e), nextSeq + 1)
  {
    var j := Position(r, e.key);
    InsertKeepsOrder(r, e);
    InsertKeepsDistinct(r, j, e);
    forall k | 0 <= k <= |r| ensures InsertAt(r, j, e)[k].key.arrival < nextSeq + 1 {
      InsertAtIndex(r, j, e, k);
    }
  }

  // Puts a new track into the ranking, the index and the counts.
  method Enter(s0: Standing, x: TrackName, value: nat, publisher: Session) returns (s: Standing, rank: nat)
    requires StandingOk(s0) && x !in s0.index
    ensures StandingOk(s) && x in s.index
    ensures rank <= |s0.ranked| && rank < |s.ranked| && s.ranked == InsertAt(s0.ranked, rank, s.ranked[rank])
    ensures New(s0.ranked, s.ranked[rank])
    ensures s.ranked[rank] == Ranked(RankKey(value, s0.nextSeq), x, publisher)
    ensures s.counts == CountUp(s0.counts, publisher) && EnteredLast(s.ranked, rank)
  {
    var e := Ranked(RankKey(value, s0.nextSeq), x, publisher);
    NotRanked(s0, e);
    rank := Position(s0.ranked, e.key);
    InsertRankingOk(s0.ranked, s0.nextSeq, e);
    InsertIndexOk(s0.ranked, s0.index, rank, e);
    InsertCountsOk(s0.ranked, s0.counts, rank, e);
    s := Standing(InsertAt(s0.ranked, rank, e), s0.index[x := RankIndex(e.key, 0)], false,
                  CountUp(s0.counts, publisher), s0.nextSeq + 1);
    InsertAtIndex(s0.ranked, rank, e, rank);
    NewestEntersLast(s0.ranked, s.ranked, rank, s0.nextSeq);
  }

  // A new track stands behind all others of its value.
  ghost predicate EnteredLast(r: Ranking, rank: nat)
    requires rank < |r|
  {
    forall j :: 0 <= j < |r| && j != rank ==> (j < rank <==> r[j].key.value >= r[rank].key.value)
  }

  lemma NewestEntersLast(before: Ranking, r: Ranking, rank: nat, nextSeq: nat)
    requires RankingOk(before, nextSeq) && Sorted(r) && rank <= |before| && rank < |r|
    requires r == InsertAt(before, rank, r[rank]) && r[rank].key.arrival == nextSeq
    ensures EnteredLast(r, rank)
  {
    SortedIsPlaced(r, rank);
    forall j | 0 <= j < |r| && j != rank ensures r[j].key.arrival < nextSeq {
      InsertAtIndex(before, rank, r[rank], j);
    }
  }

  function Revalued(e: Ranked, value: nat): Ranked {
    e.(key := RankKey(value, e.key.arrival))
  }

  // A moved entry has the new value, and stands where that belongs.
  lemma MovedIsPlaced(before: Ranking, r: Ranking, i: nat, j: nat, value: nat)
    requires IsMove(before, r, i, j) && r == Moved(before, i, j, Revalued(before[i], value))
    ensures r[j] == Ranked(RankKey(value, before[i].key.arrival), before[i].name, before[i].publisher)
    ensures Placed(r, j)
  {
    InsertAtIndex(RemoveAt(before, i), j, Revalued(before[i], value), j);
    SortedIsPlaced(r, j);
  }

  // Gives a track a new value: its entry moves to its new place.
  method Reposition(s0: Standing, x: TrackName, value: nat) returns (s: Standing, oldRank: nat, newRank: nat)
    requires StandingOk(s0) && x in s0.index
    ensures StandingOk(s) && s.counts == s0.counts && s.index.Keys == s0.index.Keys
    ensures IsMove(s0.ranked, s.ranked, oldRank, newRank)
    ensures s0.ranked[oldRank].name == x
    ensures s.ranked == Moved(s0.ranked, oldRank, newRank, Revalued(s0.ranked[oldRank], value))
  {
    var found;
    found, oldRank := GetCachedRank(s0, x);
    var moved, position := MoveEntry(found, x, value, oldRank);
    s := RankAt(moved, x, position);
    newRank := position;
  }

  // The cached rank of the track that stands at a position is that position.
  method RankAt(s0: Standing, x: TrackName, position: nat) returns (s: Standing)
    requires StandingOk(s0) && position < |s0.ranked| && s0.ranked[position].name == x
    ensures StandingOk(s) && s.ranked == s0.ranked && s.counts == s0.counts && s.index.Keys == s0.index.Keys
  {
    var rank;
    s, rank := GetCachedRank(s0, x);
    assert rank == position;
  }

  // Takes the entry at a rank out and puts it where its new key belongs.
  method MoveEntry(s0: Standing, x: TrackName, value: nat, rank: nat) returns (s: Standing, position: nat)
    requires StandingOk(s0) && rank < |s0.ranked| && s0.ranked[rank].name == x
    ensures StandingOk(s) && s.counts == s0.counts && s.index.Keys == s0.index.Keys + {x}
    ensures IsMove(s0.ranked, s.ranked, rank, position)
    ensures s.ranked == Moved(s0.ranked, rank, position, Revalued(s0.ranked[rank], value))
  {
    var e := s0.ranked[rank];
    var key := RankKey(value, e.key.arrival);
    var rest := RemoveAt(s0.ranked, rank);
    UpdateIsMove(s0.ranked, rank, key, s0.nextSeq);
    MoveIndexOk(s0.ranked, s0.index, rank, key, s0.nextSeq);
    MoveCountsOk(s0.ranked, s0.counts, rank, key);
    position := Position(rest, key);
    s := s0.(ranked := InsertAt(rest, position, e.(key := key)), index := s0.index[x := RankIndex(key, 0)], cacheValid := false);
  }

  lemma MoveIndexOk(r: Ranking, index: map<TrackName, RankIndex>, i: nat, key: RankKey, nextSeq: nat)
    requires RankingOk(r, nextSeq) && IndexOk(r, index, false) && i < |r| && key.arrival == r[i].key.arrival
    ensures var m := RemoveAt(r, i);
      IndexOk(InsertAt(m, Position(m, key), r[i].(key := key)), index[r[i].name := RankIndex(key, 0)], false)
  {
    var m := RemoveAt(r, i);
    RemoveKeepsOrder(r, i);
    RemoveIndexOk(r, index, i);
    InsertIndexOk(m, index - {r[i].name}, Position(m, key), r[i].(key := key));
    assert (index - {r[i].name})[r[i].name := RankIndex(key, 0)] == index[r[i].name := RankIndex(key, 0)];
  }

  lemma MoveCountsOk(r: Ranking, counts: map<Session, nat>, i: nat, key: RankKey)
    requires CountsOk(r, counts) && i < |r|
    ensures var m := RemoveAt(r, i); CountsOk(InsertAt(m, Position(m, key), r[i].(key := key)), counts)
  {
    var m := RemoveAt(r, i);
    forall s ensures OwnCount(InsertAt(m, Position(m, key), r[i].(key := key)), s) == OwnCount(r, s) {
      OwnCountRemove(r, i, s);
      OwnCountInsert(m, Position(m, key), r[i].(key := key), s);
    }
  }

  // Takes a track out of the ranking, the index and the counts.
  method Leave(s0: Standing, x: TrackName) returns (s: Standing, rank: nat)
    requires StandingOk(s0) && x in s0.index
    ensures StandingOk(s)
    ensures rank < |s0.ranked| && s0.ranked[rank].name == x && s.ranked == RemoveAt(s0.ranked, rank)
    ensures s.counts.Keys <= s0.counts.Keys && s.index.Keys == s0.index.Keys - {x}
    ensures forall p :: p in s.counts ==> s.counts[p] <= s0.counts[p]
  {
    s, rank := GetCachedRank(s0, x);
    RemoveKeepsOrder(s.ranked, rank);
    RemoveRankingOk(s.ranked, rank, s.nextSeq);
    RemoveIndexOk(s.ranked, s.index, rank);
    RemoveCountsOk(s.ranked, s.counts, rank);
    s := s.(ranked := RemoveAt(s.ranked, rank), index := s.index - {x}, cacheValid := false,
            counts := CountDown(s.counts, s.ranked[rank].publisher));
  }

  lemma RemoveRankingOk(r: Ranking, i: nat, nextSeq: nat)
    requires RankingOk(r, nextSeq) && i < |r|
    ensures RankingOk(RemoveAt(r, i), nextSeq)
  {
    RemoveKeepsOrder(r, i);
    forall k | 0 <= k < |r| - 1 ensures RemoveAt(r, i)[k].key.arrival < nextSeq {
      RemoveAtIndex(r, i, k);
    }
  }

  // ---- The thresholds ----------------------------------------------------------------------------

  datatype Limits = Limits(thresholds: seq<nat>, selection: nat, extended: nat)

  ghost predicate LimitsOk(groups: Groups, counts: map<Session, nat>, l: Limits) {
    SelectionOk(groups, l.thresholds, l.selection) && ExtendedOk(groups, counts, l.extended)
  }

  // The stored window is the largest n plus own tracks, plus the room for deselected tracks.
  ghost predicate WindowExact(groups: Groups, counts: map<Session, nat>, extended: nat, limit: nat) {
    && extended >= limit
    && (forall n, s :: n in groups && s in groups[n].sessions && s in counts ==> n + counts[s] + limit <= extended)
    && (extended == limit || exists n, s ::
          n in groups && s in groups[n].sessions && s in counts && n + counts[s] + limit == extended)
  }

  // The stored cut is the largest n, plus the same room.
  ghost predicate CutExact(groups: Groups, selection: nat, limit: nat) {
    && (forall n :: n in groups ==> n + limit <= selection)
    && (selection == limit || exists n :: n in groups && n + limit == selection)
  }

  // The same window for the same sessions.
  lemma WindowFrame(groups0: Groups, groups: Groups, counts: map<Session, nat>, extended: nat, limit: nat)
    requires SameSessions(groups0, groups) && WindowExact(groups0, counts, extended, limit)
    ensures WindowExact(groups, counts, extended, limit)
  {
    if extended != limit {
      var n, s :| n in groups0 && s in groups0[n].sessions && s in counts && n + counts[s] + limit == extended;
      assert s in groups[n].sessions;
    }
  }

  // The thresholds depend on which sessions are in which group, nothing more.
  lemma SessionsFrame(groups0: Groups, groups: Groups, counts: map<Session, nat>, l: Limits)
    requires SameSessions(groups0, groups) && LimitsOk(groups0, counts, l)
    ensures LimitsOk(groups, counts, l)
  {
  }

  // A reconciled publisher does not disturb what the others see.
  lemma ReconcileKeepsExact(r: Ranking, groups0: Groups, groups: Groups, s: Session, published: set<Session>)
    requires SameSessions(groups0, groups) && s in published
    requires AllReconciled(groups0, groups, s)
    requires TopExact(r, groups0) && ViewsExact(r, groups0, published)
    ensures TopExact(r, groups) && ViewsExact(r, groups, published)
  {
    forall n | n in groups ensures Settled(r, n, groups[n]) && ViewersSee(Top(r, n), groups[n], published) {
      assert Settled(r, n, groups0[n]) && ViewersSee(Top(r, n), groups0[n], published);
    }
  }

  lemma MorePublished(r: Ranking, groups: Groups, published: set<Session>, s: Session)
    requires ViewsExact(r, groups, published)
    ensures ViewsExact(r, groups, published + {s})
  {
    forall n | n in groups ensures ViewersSee(Top(r, n), groups[n], published + {s}) {
      assert ViewersSee(Top(r, n), groups[n], published);
    }
  }

  lemma EntryLogs(
    groups0: Groups, groups1: Groups, groups: Groups, rank: nat, publisher: Session, publishers: set<Session>, published: set<Session>
  )
    requires groups0.Keys == groups1.Keys == groups.Keys && publisher in published && publishers <= published
    requires AllReconciled(groups0, groups1, publisher)
    requires LogsOfEntry(groups1, groups, rank, publishers)
    ensures LogsOfEntry(groups0, groups, rank, published)
  {
    forall n | n in groups
      ensures Continues(groups0[n].log, groups[n].log)
      ensures rank >= n ==> SentTo(groups0[n].log, groups[n].log, published)
    {
      ContinuesFurther(groups0[n].log, groups1[n].log, groups[n].log);
      if rank >= n {
        SentFurther(groups0[n].log, groups1[n].log, groups[n].log, {publisher}, publishers);
      }
    }
  }

  // The callbacks of s are right once the new publisher is reconciled: they were right,
  // or s is that publisher, was a viewer and lacks nothing of the first n that it wants.
  ghost predicate ToldBefore(r: Ranking, n: nat, g: Group, s: Session, publisher: Session)
    requires s in g.sessions
  {
    if s == publisher && !WasPublisher(g.sessions[s]) then
      Wanted(r, s, n) * Top(r, n) <= View(g.log, s) <= Wanted(r, s, n) + Top(r, n)
    else Told(g, s)
  }

  // Every publisher-subscriber whose callbacks were right finds them right again
  // exactly when no track is given up that it is still sent.
  ghost predicate AllRegisterTold(
    r: Ranking, publishers: set<Session>, groups0: Groups, groups: Groups, publisher: Session, rank: nat, limit: nat
  )
    requires rank < |r|
  {
    forall n, s ::
      n in groups0 && n in groups && s in groups0[n].sessions && s in groups[n].sessions && s in publishers
      && ToldBefore(r, n, groups0[n], s, publisher) ==>
        (Told(groups[n], s) <==> ToldAfterRegister(r, n, groups0[n], rank, limit, s))
  }

  lemma ToldUpgrade(view: set<TrackName>, top: set<TrackName>, wanted: set<TrackName>)
    requires wanted * top <= view <= wanted + top
    ensures view - (top - wanted) + (wanted - top) == wanted
  {
    assert forall x :: x in view - (top - wanted) + (wanted - top) <==> x in wanted;
  }

  lemma ToldThrough(
    r: Ranking, publishers: set<Session>, groups0: Groups, groups1: Groups, groups: Groups, publisher: Session, rank: nat,
    limit: nat
  )
    requires rank < |r| && groups0.Keys == groups1.Keys == groups.Keys && AllReconciled(groups0, groups1, publisher)
    requires forall n :: n in groups ==> Upgraded(r, n, groups0[n], groups1[n], publisher)
    requires forall n :: n in groups ==> RegisterTold(r, n, publishers, groups1[n], groups[n], rank, limit)
    ensures AllRegisterTold(r, publishers, groups0, groups, publisher, rank, limit)
  {
    forall n, s |
      n in groups && s in groups0[n].sessions && s in groups[n].sessions && s in publishers
      && ToldBefore(r, n, groups0[n], s, publisher)
      ensures Told(groups[n], s) <==> ToldAfterRegister(r, n, groups0[n], rank, limit, s)
    {
      assert Reconciled(groups0[n], groups1[n], publisher) && RegisterTold(r, n, publishers, groups1[n], groups[n], rank, limit);
      if s == publisher && !WasPublisher(groups0[n].sessions[s]) {
        ToldUpgrade(View(groups0[n].log, s), Top(r, n), Wanted(r, s, n));
      }
      assert Told(groups1[n], s);
    }
  }

  lemma ShownThrough(
    r: Ranking, publishers: set<Session>, groups0: Groups, groups1: Groups, groups: Groups, publisher: Session, rank: nat,
    limit: nat
  )
    requires rank < |r| && groups0.Keys == groups1.Keys == groups.Keys && publisher in publishers
    requires AllReconciled(groups0, groups1, publisher) && AllRegisterShown(r, publishers, groups1, groups, rank, limit)
    ensures AllRegisterShown(r, publishers, groups0, groups, rank, limit)
  {
    forall n | n in groups ensures RegisterShown(r, n, publishers, groups0[n], groups[n], rank, limit) {
      assert Reconciled(groups0[n], groups1[n], publisher);
      assert RegisterShown(r, n, publishers, groups1[n], groups[n], rank, limit);
    }
  }

  // x is registered below the first n while a viewer still holds it from before.
  ghost predicate HeldFromBefore(groups: Groups, published: set<Session>, x: TrackName, rank: nat) {
    exists n, v :: n in groups && v in groups[n].sessions && v !in published && rank >= n && x in Replay(groups[n].log, v)
  }

  /** A registration keeps every viewer's replay right exactly when no viewer still holds the track unasked. */
  lemma RegisterReplays(before: Ranking, r: Ranking, rank: nat, groups0: Groups, groups: Groups, published: set<Session>)
    requires Distinct(before) && Distinct(r) && rank <= |before| && rank < |r|
    requires New(before, r[rank]) && r == InsertAt(before, rank, r[rank])
    requires SameSessions(groups0, groups) && LogsOfEntry(groups0, groups, rank, published)
    requires ViewsExact(before, groups0, published) && ViewsExact(r, groups, published)
    requires ReplaysExact(before, groups0, published)
    ensures ReplaysExact(r, groups, published) <==> !HeldFromBefore(groups0, published, r[rank].name, rank)
  {
    var x := r[rank].name;
    forall n, v | n in groups && v in groups[n].sessions && v !in published
      ensures ReplaySees(r, n, groups[n].log, v) <==> rank < n || x !in Replay(groups0[n].log, v)
    {
      assert ViewersSee(Top(before, n), groups0[n], published) && ViewersSee(Top(r, n), groups[n], published);
      assert ReplayersSee(before, n, groups0[n], published);
      RegisterReplay(before, r, n, rank, groups0[n].log, groups[n].log, v);
    }
    if HeldFromBefore(groups0, published, x, rank) {
      var n, v :| n in groups0 && v in groups0[n].sessions && v !in published && rank >= n && x in Replay(groups0[n].log, v);
      assert v in groups[n].sessions && !ReplaySees(r, n, groups[n].log, v);
      assert !ReplayersSee(r, n, groups[n], published);
    } else {
      forall n | n in groups ensures ReplayersSee(r, n, groups[n], published) {}
    }
  }

  /** A move or a removal keeps it. */
  lemma ReplaysKept(before: Ranking, r: Ranking, groups0: Groups, groups: Groups, published: set<Session>, gone: Option<TrackName>)
    requires Names(r) <= Names(before) && SameSessions(groups0, groups)
    requires if gone.Some? then gone.value !in Names(r) && LogsEnd(groups0, groups, gone.value) else LogsContinue(groups0, groups)
    requires ViewsExact(before, groups0, published) && ViewsExact(r, groups, published)
    requires ReplaysExact(before, groups0, published)
    ensures ReplaysExact(r, groups, published)
  {
    forall n | n in groups ensures ReplayersSee(r, n, groups[n], published) {
      assert ViewersSee(Top(before, n), groups0[n], published) && ViewersSee(Top(r, n), groups[n], published);
      assert ReplayersSee(before, n, groups0[n], published);
      forall v | v in groups[n].sessions && v !in published ensures ReplaySees(r, n, groups[n].log, v) {
        ReplayKept(before, r, n, groups0[n].log, groups[n].log, v);
      }
    }
  }

  lemma NamesMove(before: Ranking, r: Ranking, i: nat, j: nat)
    requires IsMove(before, r, i, j)
    ensures Names(r) <= Names(before)
  {
    InsertNames(RemoveAt(before, i), j, r[j]);
    RemoveNames(before, i);
  }

  lemma MoreReplays(r: Ranking, groups: Groups, published: set<Session>, s: Session)
    requires ReplaysExact(r, groups, published)
    ensures ReplaysExact(r, groups, published + {s})
  {
    forall n | n in groups ensures ReplayersSee(r, n, groups[n], published + {s}) {
      assert ReplayersSee(r, n, groups[n], published);
    }
  }

  // All groups after a registration: the publisher first, then everyone.
  method GroupsAfterRegister(
    ghost before: Ranking, r: Ranking, publishers: set<Session>, publisher: Session, groups0: Groups, rank: nat, limit: nat,
    ghost published: set<Session>
  ) returns (groups: Groups)
    requires Sorted(r) && Distinct(r) && Distinct(before)
    requires rank <= |before| && rank < |r| && New(before, r[rank]) && r == InsertAt(before, rank, r[rank])
    requires publisher in published && publishers <= published
    ensures SameSessions(groups0, groups) && PublishersExact(r, groups, publishers)
    ensures limit == 0 && AllExact(before, groups0, published) ==> AllExact(r, groups, published)
    ensures LogsOfEntry(groups0, groups, rank, published)
    ensures AllRegisterTold(r, publishers, groups0, groups, publisher, rank, limit)
    ensures publisher in publishers ==> AllRegisterShown(r, publishers, groups0, groups, rank, limit)
  {
    var reconciled := ReconcilePublisherInAllGroups(r, groups0, publisher);
    groups := RegisterInGroups(before, r, publishers, reconciled, rank, limit);
    EntryLogs(groups0, reconciled, groups, rank, publisher, publishers, published);
    ToldThrough(r, publishers, groups0, reconciled, groups, publisher, rank, limit);
    if publisher in publishers {
      ShownThrough(r, publishers, groups0, reconciled, groups, publisher, rank, limit);
    }
    if limit == 0 && AllExact(before, groups0, published) {
      ReconcileKeepsExact(before, groups0, reconciled, publisher, published);
      FollowingIsExact(before, r, reconciled, groups, publishers, published);
    }
  }

  // Track x stands behind all others of its value.
  ghost predicate Admitted(s0: Standing, s: Standing, x: TrackName, value: nat, publisher: Session, rank: nat) {
    && rank <= |s0.ranked| && rank < |s.ranked|
    && s.ranked == InsertAt(s0.ranked, rank, Ranked(RankKey(value, s0.nextSeq), x, publisher))
    && EnteredLast(s.ranked, rank)
  }

  // What the sessions see of a registration, and the window that follows from it.
  ghost predicate GroupsAdmit(
    s: Standing, limits: Limits, groups0: Groups, groups: Groups, publisher: Session, rank: nat, limit: nat
  ) {
    && rank < |s.ranked|
    && AllRegisterTold(s.ranked, s.counts.Keys, groups0, groups, publisher, rank, limit)
    && AllRegisterShown(s.ranked, s.counts.Keys, groups0, groups, rank, limit)
    && WindowExact(groups, s.counts, limits.extended, limit)
  }

  // The ranking, the groups and the thresholds after a track is new.
  method Admit(
    s0: Standing, groups0: Groups, limits0: Limits, x: TrackName, value: nat, publisher: Session, limit: nat,
    ghost published: set<Session>
  ) returns (s: Standing, groups: Groups, limits: Limits, rank: nat)
    requires StandingOk(s0) && x !in s0.index
    requires LimitsOk(groups0, s0.counts, limits0) && s0.counts.Keys <= published
    ensures StandingOk(s) && LimitsOk(groups, s.counts, limits) && s.counts.Keys <= published + {publisher}
    ensures Admitted(s0, s, x, value, publisher, rank)
    ensures GroupsAdmit(s, limits, groups0, groups, publisher, rank, limit) && limits == limits0.(extended := limits.extended)
    ensures SameSessions(groups0, groups) && LogsOfEntry(groups0, groups, rank, published + {publisher})
    ensures PublishersExact(s.ranked, groups, s.counts.Keys)
    ensures limit == 0 && AllExact(s0.ranked, groups0, published) ==> AllExact(s.ranked, groups, published + {publisher})
    ensures limit == 0 && AllExact(s0.ranked, groups0, published) && ReplaysExact(s0.ranked, groups0, published) ==>
      (ReplaysExact(s.ranked, groups, published + {publisher})
       <==> !HeldFromBefore(groups0, published + {publisher}, x, rank))
  {
    s, rank := Enter(s0, x, value, publisher);
    var window := MaxExtended(groups0, s.counts, 0);
    ghost var known := published + {publisher};
    groups := GroupsAfterRegister(s0.ranked, s.ranked, s.counts.Keys, publisher, groups0, rank, limit, known);
    if AllExact(s0.ranked, groups0, published) {
      MorePublished(s0.ranked, groups0, published, publisher);
    }
    limits := limits0.(extended := window + limit);
    SessionsFrame(groups0, groups, s.counts, limits);
    WindowFrame(groups0, groups, s.counts, limits.extended, limit);
    if limit == 0 && AllExact(s0.ranked, groups0, published) && ReplaysExact(s0.ranked, groups0, published) {
      MoreReplays(s0.ranked, groups0, published, publisher);
      RegisterReplays(s0.ranked, s.ranked, rank, groups0, groups, known);
    }
  }

  // On the fast path the groups stay as they are, and stay exact.
  lemma HarmlessKeepsAll(
    before: Ranking, r: Ranking, i: nat, j: nat, groups: Groups, counts: map<Session, nat>, published: set<Session>
  )
    requires IsMove(before, r, i, j) && CountsOk(before, counts) && Harmless(groups, counts, i, j)
    ensures TopExact(before, groups) ==> TopExact(r, groups)
    ensures ViewsExact(before, groups, published) ==> ViewsExact(r, groups, published)
    ensures PublishersExact(before, groups, counts.Keys) ==> PublishersExact(r, groups, counts.Keys)
  {
    HarmlessMove(before, r, i, j, groups, counts);
    forall n | n in groups
      ensures Settled(before, n, groups[n]) ==> Settled(r, n, groups[n])
      ensures ViewersSee(Top(before, n), groups[n], published) ==> ViewersSee(Top(r, n), groups[n], published)
      ensures PublishersServed(before, n, groups[n], counts.Keys) ==> PublishersServed(r, n, groups[n], counts.Keys)
    {
    }
  }

  // The publisher-subscribers that a removal leaves up to date: those of a refilled
  // group, and those that did not hold the track.
  ghost predicate RemovalCovered(groups: Groups, publishers: set<Session>, x: TrackName, rank: nat, left: nat) {
    forall n, s :: n in groups && s in groups[n].sessions && s in publishers ==>
      Refilled(rank, n, left) || x !in groups[n].sessions[s].selected
  }

  /** A removal keeps the publisher-subscribers served exactly when it is covered. */
  lemma RemovalServed(before: Ranking, rank: nat, groups0: Groups, groups: Groups, publishers: set<Session>)
    requires Distinct(before) && rank < |before| && SameSessions(groups0, groups)
    requires PublishersExact(before, groups0, publishers)
    requires var r := RemoveAt(before, rank);
      forall n :: n in groups ==>
        if Refilled(rank, n, |r|) then PublishersServed(r, n, groups[n], publishers)
        else groups[n].sessions == groups0[n].sessions
    ensures var r := RemoveAt(before, rank);
      PublishersExact(r, groups, publishers)
      <==> RemovalCovered(groups0, publishers, before[rank].name, rank, |r|)
  {
    var r := RemoveAt(before, rank);
    forall n, s | n in groups && s in groups[n].sessions && s in publishers
      ensures groups[n].sessions[s].selected == Wanted(r, s, n) <==>
        Refilled(rank, n, |r|) || before[rank].name !in groups0[n].sessions[s].selected
    {
      assert PublishersServed(before, n, groups0[n], publishers);
      WantedAfterRemove(before, rank, s, n);
    }
    if RemovalCovered(groups0, publishers, before[rank].name, rank, |r|) {
      forall n | n in groups ensures PublishersServed(r, n, groups[n], publishers) {}
    } else {
      var n, s :| n in groups0 && s in groups0[n].sessions && s in publishers
        && !Refilled(rank, n, |r|) && before[rank].name in groups0[n].sessions[s].selected;
      assert s in groups[n].sessions;
      assert !PublishersServed(r, n, groups[n], publishers);
    }
  }

  lemma FewerPublishers(r: Ranking, groups: Groups, publishers: set<Session>, fewer: set<Session>)
    requires PublishersExact(r, groups, publishers) && fewer <= publishers
    ensures PublishersExact(r, groups, fewer)
  {
    forall n | n in groups ensures PublishersServed(r, n, groups[n], fewer) {
      assert PublishersServed(r, n, groups[n], publishers);
    }
  }

  // All groups after a removal.
  method GroupsAfterRemove(
    ghost before: Ranking, ghost rank: nat, r: Ranking, publishers: set<Session>, groups0: Groups, x: TrackName, limit: nat,
    ghost published: set<Session>
  ) returns (groups: Groups)
    requires Sorted(r) && Distinct(r) && Distinct(before)
    requires rank < |before| && r == RemoveAt(before, rank) && x == before[rank].name
    requires publishers <= published
    ensures SameSessions(groups0, groups)
    ensures limit == 0 && AllExact(before, groups0, published) ==> AllExact(r, groups, published)
    ensures limit == 0 && TopExact(before, groups0) && PublishersExact(before, groups0, publishers) ==>
      (PublishersExact(r, groups, publishers) <==> RemovalCovered(groups0, publishers, x, rank, |r|))
    ensures LogsEnd(groups0, groups, x) && AllReplaysGrow(groups0, groups, publishers)
    ensures AllRemovedFrom(r, publishers, groups0, groups, x)
  {
    groups := RemoveFromGroups(before, rank, r, publishers, groups0, x, limit);
    if limit == 0 && TopExact(before, groups0) {
      FollowingIsExact(before, r, groups0, groups, publishers, published);
      if PublishersExact(before, groups0, publishers) {
        RemovalServed(before, rank, groups0, groups, publishers);
      }
    }
  }

  // The ranking, the groups and the thresholds after a track is gone.
  method Withdraw(s0: Standing, groups0: Groups, limits0: Limits, x: TrackName, limit: nat, ghost published: set<Session>)
    returns (s: Standing, groups: Groups, limits: Limits, rank: nat)
    requires StandingOk(s0) && x in s0.index
    requires LimitsOk(groups0, s0.counts, limits0) && s0.counts.Keys <= published
    ensures StandingOk(s) && LimitsOk(groups, s.counts, limits) && s.counts.Keys <= published
    ensures rank < |s0.ranked| && s0.ranked[rank].name == x && s.ranked == RemoveAt(s0.ranked, rank)
    ensures SameSessions(groups0, groups) && LogsGrow(groups0, groups) && AllReplaysGrow(groups0, groups, s.counts.Keys)
    ensures AllRemovedFrom(s.ranked, s.counts.Keys, groups0, groups, x)
    ensures WindowExact(groups, s.counts, limits.extended, limit) && limits == limits0.(extended := limits.extended)
    ensures limit == 0 && AllExact(s0.ranked, groups0, published) ==> AllExact(s.ranked, groups, published)
    ensures limit == 0 && AllExact(s0.ranked, groups0, published) && ReplaysExact(s0.ranked, groups0, published) ==>
      ReplaysExact(s.ranked, groups, published)
    ensures limit == 0 && TopExact(s0.ranked, groups0) && PublishersExact(s0.ranked, groups0, s0.counts.Keys) ==>
      (PublishersExact(s.ranked, groups, s.counts.Keys) <==> RemovalCovered(groups0, s.counts.Keys, x, rank, |s.ranked|))
  {
    s, rank := Leave(s0, x);
    var window := MaxExtended(groups0, s.counts, 0);
    groups := GroupsAfterRemove(s0.ranked, rank, s.ranked, s.counts.Keys, groups0, x, limit, published);
    if PublishersExact(s0.ranked, groups0, s0.counts.Keys) {
      FewerPublishers(s0.ranked, groups0, s0.counts.Keys, s.counts.Keys);
    }
    limits := limits0.(extended := window + limit);
    SessionsFrame(groups0, groups, s.counts, limits);
    WindowFrame(groups0, groups, s.counts, limits.extended, limit);
    LogsEndGrow(groups0, groups, x);
    if limit == 0 && AllExact(s0.ranked, groups0, published) && ReplaysExact(s0.ranked, groups0, published) {
      RemoveNames(s0.ranked, rank);
      ReplaysKept(s0.ranked, s.ranked, groups0, groups, published, Some(x));
    }
  }

  // What a move does to all groups: nothing unless it crosses.
  ghost predicate AllMoved(
    r: Ranking, counts: map<Session, nat>, limits: Limits, groups0: Groups, groups: Groups, from: nat, to: nat, limit: nat
  )
    requires to < |r|
  {
    && groups.Keys == groups0.Keys
    && (!Crosses(groups0, counts, limits.selection, limits.extended, from, to) ==> groups == groups0)
    && AllMoveTold(r, counts.Keys, groups0, groups, from, to, limit)
    && AllMoveShown(r, counts.Keys, groups0, groups, from, to, limit)
  }

  lemma HarmlessIsMoved(
    r: Ranking, counts: map<Session, nat>, limits: Limits, groups: Groups, from: nat, to: nat, limit: nat
  )
    requires to < |r| && Harmless(groups, counts, from, to)
    ensures AllMoved(r, counts, limits, groups, groups, from, to, limit)
  {
    forall n | n in groups
      ensures MoveTold(r, n, counts.Keys, groups[n], groups[n], from, to, limit)
      ensures MoveShown(r, n, counts.Keys, groups[n], groups[n], from, to, limit)
    {
    }
  }

  // All groups after a move: untouched on the fast path, recomputed otherwise.
  method GroupsAfterMove(
    ghost before: Ranking, r: Ranking, groups0: Groups, counts: map<Session, nat>, limits: Limits, oldRank: nat, newRank: nat,
    limit: nat, ghost published: set<Session>
  ) returns (groups: Groups, crossed: bool)
    requires IsMove(before, r, oldRank, newRank) && CountsOk(before, counts)
    requires LimitsOk(groups0, counts, limits) && counts.Keys <= published
    ensures SameSessions(groups0, groups) && (!crossed ==> groups == groups0) && LogsContinue(groups0, groups)
    ensures limit == 0 && AllExact(before, groups0, published) ==> AllExact(r, groups, published)
    ensures PublishersExact(before, groups0, counts.Keys) ==> PublishersExact(r, groups, counts.Keys)
    ensures AllMoved(r, counts, limits, groups0, groups, oldRank, newRank, limit)
    ensures crossed <==> Crosses(groups0, counts, limits.selection, limits.extended, oldRank, newRank)
  {
    groups := groups0;
    crossed := CrossesThreshold(groups, counts, limits.thresholds, limits.selection, limits.extended, oldRank, newRank);
    if crossed {
      groups := RecomputeTopNGroups(before, r, counts.Keys, groups0, oldRank, newRank, limit);
      if limit == 0 && TopExact(before, groups0) {
        FollowingIsExact(before, r, groups0, groups, counts.Keys, published);
      }
    } else {
      HarmlessKeepsAll(before, r, oldRank, newRank, groups, counts, published);
      HarmlessIsMoved(r, counts, limits, groups, oldRank, newRank, limit);
    }
  }

  // Track x has moved to where its new value belongs.
  ghost predicate Repositioned(s0: Standing, s: Standing, x: TrackName, value: nat, from: nat, to: nat) {
    && from < |s0.ranked| && to < |s0.ranked| == |s.ranked| && s0.ranked[from].name == x
    && s.ranked == Moved(s0.ranked, from, to, Revalued(s0.ranked[from], value))
    && s.ranked[to] == Ranked(RankKey(value, s0.ranked[from].key.arrival), x, s0.ranked[from].publisher)
    && Placed(s.ranked, to) && s.counts == s0.counts
  }

  // The groups after the move, and after the sweep that a move may set off.
  ghost predicate GroupsFollow(
    s: Standing, limits: Limits, groups0: Groups, moved: Groups, groups: Groups, idle: TrackName -> bool, sweep: bool,
    limit: nat, from: nat, to: nat
  )
    requires to < |s.ranked|
  {
    && AllMoved(s.ranked, s.counts, limits, groups0, moved, from, to, limit)
    && if sweep && Crosses(groups0, s.counts, limits.selection, limits.extended, from, to)
       then AllSwept(s.ranked, s.counts.Keys, moved, groups, idle) else groups == moved
  }

  // The ranking and the groups after a track got a new value.
  method Revalue(
    s0: Standing, groups0: Groups, limits: Limits, x: TrackName, value: nat, idle: TrackName -> bool, sweep: bool, limit: nat,
    ghost published: set<Session>
  ) returns (s: Standing, groups: Groups, ghost from: nat, ghost to: nat, ghost moved: Groups)
    requires StandingOk(s0) && x in s0.index
    requires LimitsOk(groups0, s0.counts, limits) && s0.counts.Keys <= published
    ensures StandingOk(s) && Repositioned(s0, s, x, value, from, to)
    ensures LimitsOk(groups, s.counts, limits) && SameSessions(groups0, groups) && LogsContinue(groups0, groups)
    ensures limit == 0 && !sweep && AllExact(s0.ranked, groups0, published) ==> AllExact(s.ranked, groups, published)
    ensures limit == 0 && !sweep && AllExact(s0.ranked, groups0, published) && ReplaysExact(s0.ranked, groups0, published) ==>
      ReplaysExact(s.ranked, groups, published)
    ensures PublishersExact(s0.ranked, groups0, s0.counts.Keys) ==> PublishersExact(s.ranked, groups, s.counts.Keys)
    ensures GroupsFollow(s, limits, groups0, moved, groups, idle, sweep, limit, from, to)
  {
    var oldRank, newRank, crossed;
    s, oldRank, newRank := Reposition(s0, x, value);
    from, to := oldRank, newRank;
    MovedIsPlaced(s0.ranked, s.ranked, from, to, value);
    groups, crossed := GroupsAfterMove(s0.ranked, s.ranked, groups0, s.counts, limits, oldRank, newRank, limit, published);
    SessionsFrame(groups0, groups, s.counts, limits);
    if limit == 0 && AllExact(s0.ranked, groups0, published) && ReplaysExact(s0.ranked, groups0, published) {
      NamesMove(s0.ranked, s.ranked, from, to);
      ReplaysKept(s0.ranked, s.ranked, groups0, groups, published, None);
    }
    moved := groups;
    if crossed && sweep {
      groups := SweepGroups(s.ranked, s.counts.Keys, groups, idle, limit);
      SessionsFrame(groups0, groups, s.counts, limits);
      forall n | n in groups ensures Continues(groups0[n].log, groups[n].log) {
        ContinuesFurther(groups0[n].log, moved[n].log, groups[n].log);
      }
    }
  }

  // The same for any track: one that is not registered or has the value already changes nothing.
  method SetValue(
    s0: Standing, groups0: Groups, limits: Limits, x: TrackName, value: nat, idle: TrackName -> bool, sweep: bool, limit: nat,
    ghost published: set<Session>
  ) returns (s: Standing, groups: Groups, ghost from: nat, ghost to: nat, ghost moved: Groups)
    requires StandingOk(s0) && LimitsOk(groups0, s0.counts, limits) && s0.counts.Keys <= published
    ensures StandingOk(s) && LimitsOk(groups, s.counts, limits) && s.counts.Keys <= published && LogsGrow(groups0, groups)
    ensures limit == 0 && !sweep && AllExact(s0.ranked, groups0, published) ==> AllExact(s.ranked, groups, published)
    ensures limit == 0 && !sweep && AllExact(s0.ranked, groups0, published) && ReplaysExact(s0.ranked, groups0, published) ==>
      ReplaysExact(s.ranked, groups, published)
    ensures PublishersExact(s0.ranked, groups0, s0.counts.Keys) ==> PublishersExact(s.ranked, groups, s.counts.Keys)
    ensures ValueSet(s0, s, limits, groups0, moved, groups, x, value, idle, sweep, limit, from, to)
  {
    s, groups, from, to, moved := s0, groups0, 0, 0, groups0;
    if x !in s0.index || s0.index[x].key.value == value {
      return;
    }
    s, groups, from, to, moved := Revalue(s0, groups0, limits, x, value, idle, sweep, limit, published);
  }

  // Nothing, or the move and what it sets off.
  ghost predicate ValueSet(
    s0: Standing, s: Standing, limits: Limits, groups0: Groups, moved: Groups, groups: Groups, x: TrackName, value: nat,
    idle: TrackName -> bool, sweep: bool, limit: nat, from: nat, to: nat
  ) {
    if x !in s0.index || s0.index[x].key.value == value then s == s0 && groups == groups0
    else
      && Repositioned(s0, s, x, value, from, to)
      && GroupsFollow(s, limits, groups0, moved, groups, idle, sweep, limit, from, to)
  }

  // Whatever was exact for one map of groups is exact for the other.
  ghost predicate KeepsExact(r: Ranking, counts: map<Session, nat>, published: set<Session>, groups0: Groups, groups: Groups) {
    && (AllExact(r, groups0, published) ==> AllExact(r, groups, published))
    && (PublishersExact(r, groups0, counts.Keys) ==> PublishersExact(r, groups, counts.Keys))
    && (ReplaysExact(r, groups0, published) ==> ReplaysExact(r, groups, published))
    && LogsContinue(groups0, groups)
  }

  // Replacing one group keeps exact what that group keeps exact.
  lemma PutGroup(r: Ranking, counts: map<Session, nat>, published: set<Session>, groups: Groups, n: nat, g: Group)
    requires AllExact(r, groups, published) ==> Settled(r, n, g) && ViewersSee(Top(r, n), g, published)
    requires PublishersExact(r, groups, counts.Keys) ==> PublishersServed(r, n, g, counts.Keys)
    requires ReplaysExact(r, groups, published) ==> ReplayersSee(r, n, g, published)
    requires n in groups ==> Continues(groups[n].log, g.log)
    ensures KeepsExact(r, counts, published, groups, groups[n := g])
  {
  }

  lemma ReplaceGroup(r: Ranking, counts: map<Session, nat>, published: set<Session>, groups: Groups, n: nat, g: Group)
    requires n in groups
    requires Settled(r, n, groups[n]) ==> Settled(r, n, g)
    requires ViewersSee(Top(r, n), groups[n], published) ==> ViewersSee(Top(r, n), g, published)
    requires PublishersServed(r, n, groups[n], counts.Keys) ==> PublishersServed(r, n, g, counts.Keys)
    requires ReplayersSee(r, n, groups[n], published) ==> ReplayersSee(r, n, g, published)
    requires Continues(groups[n].log, g.log)
    ensures KeepsExact(r, counts, published, groups, groups[n := g])
  {
    assert AllExact(r, groups, published) ==> Settled(r, n, groups[n]) && ViewersSee(Top(r, n), groups[n], published);
    assert PublishersExact(r, groups, counts.Keys) ==> PublishersServed(r, n, groups[n], counts.Keys);
    assert ReplaysExact(r, groups, published) ==> ReplayersSee(r, n, groups[n], published);
    PutGroup(r, counts, published, groups, n, g);
  }

  lemma DropGroupKeeps(r: Ranking, counts: map<Session, nat>, published: set<Session>, groups: Groups, n: nat)
    ensures KeepsExact(r, counts, published, groups, groups - {n})
  {
  }

  // No group but that for n is touched.
  ghost predicate OnlyAdds(groups0: Groups, groups: Groups, n: nat) {
    groups.Keys == groups0.Keys + {n} && forall m :: m in groups0 && m != n ==> groups[m] == groups0[m]
  }

  // Session s is new in group n, which nobody else notices.
  ghost predicate SessionJoined(groups0: Groups, groups: Groups, n: nat, s: Session, forward: bool) {
    && OnlyAdds(groups0, groups, n) && s in groups[n].sessions && groups[n].sessions[s].forward == forward
    && if n in groups0 then JoinedTo(groups0[n], groups[n], s) else groups[n].sessions.Keys == {s}
  }

  ghost predicate JoinedTo(g0: Group, g: Group, s: Session) {
    && g.sessions.Keys == g0.sessions.Keys + {s} && g.states == g0.states && g.queue == g0.queue
    && forall v :: v in g0.sessions && v != s ==> g.sessions[v] == g0.sessions[v]
  }

  // The group for n, set up and put among the thresholds when it is new.
  method GetOrCreateTopNGroup(
    r: Ranking, groups0: Groups, counts: map<Session, nat>, limits0: Limits, n: nat, limit: nat, ghost published: set<Session>
  ) returns (groups: Groups, limits: Limits)
    requires LimitsOk(groups0, counts, limits0)
    ensures n in groups && LimitsOk(groups, counts, limits) && OnlyAdds(groups0, groups, n)
    ensures n in groups0 ==> groups == groups0 && limits == limits0
    ensures limits.extended == limits0.extended
    ensures n !in groups0 ==> groups[n].sessions == map[] && CutExact(groups, limits.selection, limit)
    ensures KeepsExact(r, counts, published, groups0, groups)
  {
    groups, limits := groups0, limits0;
    if n !in groups {
      var g := NewGroup(r, n);
      PutGroup(r, counts, published, groups, n, g);
      groups := groups[n := g];
      var thresholds, maxN := SortThresholds(groups);
      limits := limits.(thresholds := thresholds, selection := maxN + limit);
    }
  }

  // A session that publishes nothing does not move the thresholds.
  lemma JoinLimits(groups: Groups, counts: map<Session, nat>, l: Limits, n: nat, g: Group, s: Session)
    requires LimitsOk(groups, counts, l) && n in groups && g.sessions.Keys == groups[n].sessions.Keys + {s}
    ensures SelectionOk(groups[n := g], l.thresholds, l.selection)
    ensures s !in counts ==> LimitsOk(groups[n := g], counts, l)
  {
  }

  // What a join keeps of the group it joins.
  lemma JoinExact(r: Ranking, n: nat, publishers: set<Session>, published: set<Session>, g0: Group, g: Group, s: Session)
    requires publishers <= published
    requires g.sessions.Keys == g0.sessions.Keys + {s} && g.states == g0.states && g.queue == g0.queue
    requires forall v :: v in g0.sessions && v != s ==> g.sessions[v] == g0.sessions[v] && View(g.log, v) == View(g0.log, v)
    requires if s in publishers then g.sessions[s].selected == Wanted(r, s, n) else View(g.log, s) == Top(r, n)
    requires SentTo(g0.log, g.log, {s}) && (s !in publishers ==> Replay(g.log, s) == Top(r, n))
    ensures ReplayersSee(r, n, g0, published) ==> ReplayersSee(r, n, g, published)
    ensures Settled(r, n, g0) ==> Settled(r, n, g)
    ensures ViewersSee(Top(r, n), g0, published) ==> ViewersSee(Top(r, n), g, published)
    ensures PublishersServed(r, n, g0, publishers) ==> PublishersServed(r, n, g, publishers)
  {
    if ReplayersSee(r, n, g0, published) {
      forall v | v in g.sessions && v !in published ensures ReplaySees(r, n, g.log, v) {
        if v == s {
          TopIsRegistered(r, n);
        } else {
          NothingChanges(g0.log, g.log, v);
        }
      }
    }
  }

  method JoinGroups(
    r: Ranking, groups0: Groups, counts: map<Session, nat>, limits0: Limits, n: nat, s: Session, forward: bool, limit: nat,
    ghost published: set<Session>
  ) returns (groups: Groups, limits: Limits)
    requires Sorted(r) && Distinct(r) && n in groups0 && LimitsOk(groups0, counts, limits0) && counts.Keys <= published
    ensures LimitsOk(groups, counts, limits)
    ensures n in groups && SessionJoined(groups0, groups, n, s, forward)
    ensures limits == limits0.(extended := limits.extended) && (s !in counts ==> limits == limits0)
    ensures s in counts ==> WindowExact(groups, counts, limits.extended, limit)
    ensures s !in counts ==> View(groups[n].log, s) == Top(r, n)
    ensures KeepsExact(r, counts, published, groups0, groups)
  {
    limits := limits0;
    var g := JoinGroup(r, n, counts.Keys, groups0[n], s, forward);
    JoinExact(r, n, counts.Keys, published, groups0[n], g, s);
    ReplaceGroup(r, counts, published, groups0, n, g);
    JoinLimits(groups0, counts, limits0, n, g, s);
    groups := groups0[n := g];
    if s in counts {
      var window := MaxExtended(groups, counts, 0);
      limits := limits.(extended := window + limit);
    }
  }

  lemma KeepsExactTwice(
    r: Ranking, counts: map<Session, nat>, published: set<Session>, groups0: Groups, groups1: Groups, groups: Groups
  )
    requires KeepsExact(r, counts, published, groups0, groups1) && KeepsExact(r, counts, published, groups1, groups)
    requires groups0.Keys <= groups1.Keys
    ensures KeepsExact(r, counts, published, groups0, groups)
  {
    forall n | n in groups0 && n in groups ensures Continues(groups0[n].log, groups[n].log) {
      ContinuesFurther(groups0[n].log, groups1[n].log, groups[n].log);
    }
  }

  method AddSession(
    r: Ranking, groups0: Groups, counts: map<Session, nat>, limits0: Limits, n: nat, s: Session, forward: bool, limit: nat,
    ghost published: set<Session>
  ) returns (groups: Groups, limits: Limits)
    requires Sorted(r) && Distinct(r) && LimitsOk(groups0, counts, limits0) && counts.Keys <= published
    ensures LimitsOk(groups, counts, limits)
    ensures n in groups && SessionJoined(groups0, groups, n, s, forward)
    ensures n !in groups0 ==> CutExact(groups, limits.selection, limit)
    ensures s !in counts ==> limits.extended == limits0.extended
    ensures s in counts ==> WindowExact(groups, counts, limits.extended, limit)
    ensures s !in counts ==> View(groups[n].log, s) == Top(r, n)
    ensures KeepsExact(r, counts, published, groups0, groups)
  {
    var ready, bounds := GetOrCreateTopNGroup(r, groups0, counts, limits0, n, limit, published);
    groups, limits := JoinGroups(r, ready, counts, bounds, n, s, forward, limit, published);
    KeepsExactTwice(r, counts, published, groups0, ready, groups);
  }

  ghost predicate SameButFor(groups0: Groups, groups: Groups, n: nat) {
    && (forall m :: m in groups && m != n ==> m in groups0 && groups[m] == groups0[m])
    && (forall m :: m in groups0 && m != n ==> m in groups)
  }

  // The session is gone from group n, and nobody else; the last one takes the group with it.
  ghost predicate SessionLeft(groups0: Groups, groups: Groups, n: nat, s: Session) {
    && SameButFor(groups0, groups, n)
    && (n !in groups0 ==> n !in groups)
    && (n in groups0 ==> (n in groups <==> exists v :: v in groups0[n].sessions && v != s))
    && (n in groups0 && n in groups ==> groups[n] == groups0[n].(sessions := groups0[n].sessions - {s}))
  }

  // Fewer sessions, or sessions changed in nothing but their forward flag, stay exact.
  lemma LeaveExact(r: Ranking, counts: map<Session, nat>, published: set<Session>, groups: Groups, n: nat, g: Group)
    requires n in groups && g.states == groups[n].states && g.queue == groups[n].queue && g.log == groups[n].log
    requires forall v :: v in g.sessions ==> v in groups[n].sessions && g.sessions[v].selected == groups[n].sessions[v].selected
    ensures KeepsExact(r, counts, published, groups, groups[n := g])
  {
    ReplaceGroup(r, counts, published, groups, n, g);
  }

  lemma LeaveLimits(groups: Groups, counts: map<Session, nat>, l: Limits, n: nat, g: Group)
    requires LimitsOk(groups, counts, l) && n in groups && g.sessions.Keys <= groups[n].sessions.Keys
    ensures LimitsOk(groups[n := g], counts, l)
  {
  }

  function WithForward(groups: Groups, n: nat, s: Session, forward: bool): Groups
    requires n in groups && s in groups[n].sessions
  {
    groups[n := groups[n].(sessions := groups[n].sessions[s := groups[n].sessions[s].(forward := forward)])]
  }

  // A session changes in nothing but its forward flag.
  method SetForward(
    r: Ranking, groups0: Groups, counts: map<Session, nat>, ghost limits: Limits, n: nat, s: Session, forward: bool,
    ghost published: set<Session>
  ) returns (groups: Groups)
    requires LimitsOk(groups0, counts, limits)
    ensures groups == if n in groups0 && s in groups0[n].sessions then WithForward(groups0, n, s, forward) else groups0
    ensures LimitsOk(groups, counts, limits) && KeepsExact(r, counts, published, groups0, groups)
  {
    groups := groups0;
    if n !in groups0 || s !in groups0[n].sessions {
      return;
    }
    var g := groups0[n].(sessions := groups0[n].sessions[s := groups0[n].sessions[s].(forward := forward)]);
    LeaveExact(r, counts, published, groups0, n, g);
    LeaveLimits(groups0, counts, limits, n, g);
    groups := groups0[n := g];
  }

  method LeaveGroups(
    r: Ranking, groups0: Groups, counts: map<Session, nat>, limits0: Limits, n: nat, s: Session, limit: nat,
    ghost published: set<Session>
  ) returns (groups: Groups, limits: Limits)
    requires LimitsOk(groups0, counts, limits0)
    ensures LimitsOk(groups, counts, limits)
    ensures KeepsExact(r, counts, published, groups0, groups)
    ensures SessionLeft(groups0, groups, n, s)
    ensures n in groups0 && s in counts ==> WindowExact(groups, counts, limits.extended, limit)
    ensures n in groups0 && n !in groups ==> CutExact(groups, limits.selection, limit)
  {
    groups, limits := groups0, limits0;
    if n in groups0 {
      groups, limits := LeaveOne(r, groups0, counts, limits0, n, s, limit, published);
      if s in counts {
        var window := MaxExtended(groups, counts, 0);
        limits := limits.(extended := window + limit);
      }
    }
  }

  method LeaveOne(
    r: Ranking, groups0: Groups, counts: map<Session, nat>, limits0: Limits, n: nat, s: Session, limit: nat,
    ghost published: set<Session>
  ) returns (groups: Groups, limits: Limits)
    requires n in groups0 && LimitsOk(groups0, counts, limits0)
    ensures LimitsOk(groups, counts, limits)
    ensures KeepsExact(r, counts, published, groups0, groups)
    ensures SessionLeft(groups0, groups, n, s)
    ensures n !in groups ==> CutExact(groups, limits.selection, limit)
  {
    var g := groups0[n].(sessions := groups0[n].sessions - {s});
    LeaveExact(r, counts, published, groups0, n, g);
    LeaveLimits(groups0, counts, limits0, n, g);
    groups, limits := DropEmptyGroup(r, groups0[n := g], counts, limits0, n, limit, published);
    assert g.sessions != map[] <==> exists v :: v in g.sessions;
    KeepsExactTwice(r, counts, published, groups0, groups0[n := g], groups);
  }

  // A group without sessions goes, and its threshold with it.
  method DropEmptyGroup(
    r: Ranking, groups0: Groups, counts: map<Session, nat>, limits0: Limits, n: nat, limit: nat, ghost published: set<Session>
  ) returns (groups: Groups, limits: Limits)
    requires n in groups0 && LimitsOk(groups0, counts, limits0)
    ensures LimitsOk(groups, counts, limits)
    ensures KeepsExact(r, counts, published, groups0, groups)
    ensures SameButFor(groups0, groups, n) && (n in groups ==> groups[n] == groups0[n])
    ensures n in groups <==> groups0[n].sessions != map[]
    ensures n !in groups ==> CutExact(groups, limits.selection, limit)
  {
    groups, limits := groups0, limits0;
    if groups0[n].sessions == map[] {
      DropGroupKeeps(r, counts, published, groups, n);
      groups := groups - {n};
      var thresholds, maxN := SortThresholds(groups);
      limits := limits.(thresholds := thresholds, selection := maxN + limit);
    }
  }

  class PropertyRanking {
    const maxDeselected: nat
    const idleEviction: bool
    var standing: Standing
    var groups: Groups
    var limits: Limits
    ghost var published: set<Session>

    ghost predicate Valid()
      reads this
    {
      && StandingOk(standing)
      && LimitsOk(groups, standing.counts, limits)
      && standing.counts.Keys <= published
    }

    ghost predicate Exact()
      reads this
    {
      AllExact(standing.ranked, groups, published)
    }

    // So is what viewers make of their select and evict callbacks alone.
    ghost predicate Replays()
      reads this
    {
      ReplaysExact(standing.ranked, groups, published)
    }

    // So are the tracks sent to publisher-subscribers.
    ghost predicate Served()
      reads this
    {
      PublishersExact(standing.ranked, groups, standing.counts.Keys)
    }

    constructor (deselectedLimit: nat, evictIdle: bool)
      ensures Valid() && Exact() && Served() && Replays() && groups == map[] && standing.ranked == []
      ensures published == {} && limits == Limits([], 0, 0)
      ensures maxDeselected == deselectedLimit && idleEviction == evictIdle
    {
      maxDeselected, idleEviction := deselectedLimit, evictIdle;
      standing, groups := Standing([], map[], false, map[], 0), map[];
      limits, published := Limits([], 0, 0), {};
    }

    /**
     * Registers a track. Afterwards every publisher-subscriber is served, whatever
     * was the case before.
     */
    method RegisterTrack(x: TrackName, initialValue: Option<nat>, publisher: Session) returns (ghost rank: nat)
      requires Valid()
      modifies this
      ensures Valid()
      ensures maxDeselected == 0 && old(Exact()) ==> Exact()
      ensures x !in old(standing).index ==> Served()
      ensures x in old(standing).index ==>
        standing == old(standing) && groups == old(groups) && limits == old(limits) && published == old(published)
      ensures x !in old(standing).index ==>
        var value := if initialValue.Some? then initialValue.value else 0;
        Admitted(old(standing), standing, x, value, publisher, rank)
      ensures LogsGrow(old(groups), groups) && SameSessions(old(groups), groups)
      ensures x !in old(standing).index ==>
        && published == old(published) + {publisher} && LogsOfEntry(old(groups), groups, rank, published)
        && GroupsAdmit(standing, limits, old(groups), groups, publisher, rank, maxDeselected)
        && limits == old(limits).(extended := limits.extended)
      ensures maxDeselected == 0 && old(Exact()) && old(Replays()) && x !in old(standing).index ==>
        (Replays() <==> !HeldFromBefore(old(groups), published, x, rank))
    {
      rank := 0;
      if x in standing.index {
        return;
      }
      var value := if initialValue.Some? then initialValue.value else 0;
      var entered, after, bounds;
      entered, after, bounds, rank := Admit(standing, groups, limits, x, value, publisher, maxDeselected, published);
      standing, groups, limits, published := entered, after, bounds, published + {publisher};
    }

    /**
     * Gives a track a new value. A move that crosses no threshold leaves the groups
     * alone; either way what is selected stays exact.
     */
    method UpdateSortValue(x: TrackName, value: nat, idle: TrackName -> bool, throttled: bool)
      returns (ghost from: nat, ghost to: nat, ghost moved: Groups)
      requires Valid()
      modifies this`standing, this`groups
      ensures Valid()
      ensures maxDeselected == 0 && (idleEviction ==> throttled) && old(Exact()) ==> Exact()
      ensures old(Served()) ==> Served()
      ensures ValueSet(
        old(standing), standing, limits, old(groups), moved, groups, x, value, idle, idleEviction && !throttled, maxDeselected,
        from, to)
      ensures LogsGrow(old(groups), groups)
      ensures maxDeselected == 0 && (idleEviction ==> throttled) && old(Exact()) && old(Replays()) ==> Replays()
    {
      var revalued, after;
      revalued, after, from, to, moved := SetValue(
        standing, groups, limits, x, value, idle, idleEviction && !throttled, maxDeselected, published);
      standing, groups := revalued, after;
    }

    // Replaces quiet tracks, when that is switched on.
    method SweepIdle(idle: TrackName -> bool, throttled: bool)
      requires Valid()
      modifies this`groups
      ensures Valid()
      ensures old(Served()) ==> Served()
      ensures LogsGrow(old(groups), groups)
      ensures if idleEviction && !throttled then AllSwept(standing.ranked, standing.counts.Keys, old(groups), groups, idle)
              else groups == old(groups)
    {
      if !idleEviction || throttled {
        return;
      }
      var after := SweepGroups(standing.ranked, standing.counts.Keys, groups, idle, maxDeselected);
      SessionsFrame(groups, after, standing.counts, limits);
      groups := after;
    }

    /**
     * Removes a track. Selection and viewers stay exact; the publisher-subscribers
     * do exactly when the removal is covered.
     */
    method RemoveTrack(x: TrackName) returns (ghost rank: nat)
      requires Valid()
      modifies this
      ensures Valid()
      ensures maxDeselected == 0 && old(Exact()) ==> Exact()
      ensures x !in old(standing).index ==> standing == old(standing) && groups == old(groups) && limits == old(limits)
      ensures x in old(standing).index ==>
        && rank < |old(standing).ranked| && old(standing).ranked[rank].name == x
        && standing.ranked == RemoveAt(old(standing).ranked, rank)
      ensures maxDeselected == 0 && old(Exact()) && old(Served()) && x in old(standing).index ==>
        (Served() <==> RemovalCovered(old(groups), standing.counts.Keys, x, rank, |standing.ranked|))
      ensures LogsGrow(old(groups), groups) && SameSessions(old(groups), groups) && published == old(published)
      ensures AllReplaysGrow(old(groups), groups, standing.counts.Keys)
      ensures x in old(standing).index ==>
        && AllRemovedFrom(standing.ranked, standing.counts.Keys, old(groups), groups, x)
        && WindowExact(groups, standing.counts, limits.extended, maxDeselected)
        && limits == old(limits).(extended := limits.extended)
      ensures maxDeselected == 0 && old(Exact()) && old(Replays()) ==> Replays()
    {
      rank := 0;
      if x !in standing.index {
        return;
      }
      var left, after, bounds;
      left, after, bounds, rank := Withdraw(standing, groups, limits, x, maxDeselected, published);
      limits := bounds;
      standing, groups := left, after;
    }

    /** A session joins the group for n, which is set up if it is the first. */
    method AddSessionToTopNGroup(n: nat, s: Session, forward: bool)
      requires Valid()
      modifies this`groups, this`limits
      ensures Valid()
      ensures n in groups && SessionJoined(old(groups), groups, n, s, forward)
      ensures s in standing.counts ==> WindowExact(groups, standing.counts, limits.extended, maxDeselected)
      ensures n !in old(groups) ==> CutExact(groups, limits.selection, maxDeselected)
      ensures s !in standing.counts ==> limits.extended == old(limits).extended
      ensures old(Exact()) ==> Exact()
      ensures old(Served()) ==> Served()
      ensures s !in standing.counts ==> View(groups[n].log, s) == Top(standing.ranked, n)
      ensures old(Replays()) ==> Replays()
      ensures LogsGrow(old(groups), groups)
    {
      var after, bounds := AddSession(
        standing.ranked, groups, standing.counts, limits, n, s, forward, maxDeselected, published);
      groups, limits := after, bounds;
    }

    /** A session leaves; the last one takes the group with it. */
    method RemoveSessionFromTopNGroup(n: nat, s: Session)
      requires Valid()
      modifies this`groups, this`limits
      ensures Valid()
      ensures SessionLeft(old(groups), groups, n, s)
      ensures n in old(groups) && s in standing.counts ==> WindowExact(groups, standing.counts, limits.extended, maxDeselected)
      ensures n in old(groups) && n !in groups ==> CutExact(groups, limits.selection, maxDeselected)
      ensures old(Exact()) ==> Exact()
      ensures old(Served()) ==> Served()
      ensures old(Replays()) ==> Replays()
      ensures LogsGrow(old(groups), groups)
    {
      var after, bounds := LeaveGroups(standing.ranked, groups, standing.counts, limits, n, s, maxDeselected, published);
      groups, limits := after, bounds;
    }

    method UpdateSessionForward(n: nat, s: Session, forward: bool)
      requires Valid()
      modifies this`groups
      ensures Valid()
      ensures old(Exact()) ==> Exact()
      ensures old(Served()) ==> Served()
      ensures old(Replays()) ==> Replays()
      ensures groups ==
        if n in old(groups) && s in old(groups)[n].sessions then WithForward(old(groups), n, s, forward) else old(groups)
    {
      var after := SetForward(standing.ranked, groups, standing.counts, limits, n, s, forward, published);
      groups := after;
    }
  }

  // The best rank is within the first n of every group.
  lemma NotHeldAbove(groups: Groups, published: set<Session>, x: TrackName)
    requires 0 !in groups
    ensures !HeldFromBefore(groups, published, x, 0)
  {
  }

  // Where a second track goes.
  lemma SecondPlace(before: Ranking, rank: nat, e: Ranked, r: Ranking)
    requires |before| == 1 && rank <= 1 && r == InsertAt(before, rank, e) && Sorted(r)
    ensures r == if rank == 0 then [e, before[0]] else [before[0], e]
    ensures e.key.value > before[0].key.value ==> rank == 0
    ensures e.key.value < before[0].key.value ==> rank == 1
  {
    assert r[0].key.Above(r[1].key);
  }

  // Viewers whose first n end above the rank make the same of their callbacks.
  ghost predicate ReplaysBelow(groups0: Groups, groups: Groups, rank: nat, published: set<Session>) {
    forall n, v :: n in groups0 && n in groups && n <= rank && v !in published ==>
      Replay(groups[n].log, v) == Replay(groups0[n].log, v)
  }

  lemma EntryReplays(groups0: Groups, groups: Groups, rank: nat, published: set<Session>)
    requires LogsOfEntry(groups0, groups, rank, published)
    ensures ReplaysBelow(groups0, groups, rank, published)
  {
    forall n, v | n in groups0 && n in groups && n <= rank && v !in published
      ensures Replay(groups[n].log, v) == Replay(groups0[n].log, v)
    {
      NothingChanges(groups0[n].log, groups[n].log, v);
    }
  }

  // Registers a second track, above or below the first.
  method RegisterSecond(ranking: PropertyRanking, x: TrackName, value: nat, p: Session) returns (ghost rank: nat)
    requires ranking.Valid() && ranking.Exact() && ranking.Replays() && ranking.maxDeselected == 0
    requires |ranking.standing.ranked| == 1 && ranking.standing.ranked[0].name != x
    requires value != ranking.standing.ranked[0].key.value
    modifies ranking
    ensures ranking.Valid() && ranking.Exact()
    ensures ranking.published == old(ranking.published) + {p} && SameSessions(old(ranking.groups), ranking.groups)
    ensures var y, r := old(ranking.standing).ranked[0], ranking.standing.ranked;
      && |r| == 2
      && if value > y.key.value then rank == 0 && r[0].name == x && r[1] == y else rank == 1 && r[0] == y && r[1].name == x
    ensures ranking.Replays() <==> !HeldFromBefore(old(ranking.groups), ranking.published, x, rank)
    ensures ReplaysBelow(old(ranking.groups), ranking.groups, rank, ranking.published)
  {
    ghost var before, e := ranking.standing.ranked, Ranked(RankKey(value, ranking.standing.nextSeq), x, p);
    assert x !in Names(before);
    rank := ranking.RegisterTrack(x, Some(value), p);
    SecondPlace(before, rank, e, ranking.standing.ranked);
    EntryReplays(old(ranking.groups), ranking.groups, rank, ranking.published);
  }

  /**
   * The failing case: x is sent to v, ends, and is registered again below a better
   * track. From its callbacks v still holds x.
   */
  method HeldOver(v: Session, p: Session, x: TrackName, y: TrackName) returns (ranking: PropertyRanking)
    requires v != p && x != y
    ensures ranking.Valid() && ranking.Exact() && !ranking.Replays()
    ensures Names(ranking.standing.ranked) == {x, y} && 1 in ranking.groups && v in ranking.groups[1].sessions
    ensures View(ranking.groups[1].log, v) == {y} && {x, y} <= Replay(ranking.groups[1].log, v)
  {
    ranking := RegisteredBelow(v, p, x, y);
    ghost var r, g := ranking.standing.ranked, ranking.groups[1];
    assert ViewersSee(Top(r, 1), g, ranking.published);
    FirstOfTwo(r);
    ReplayIsViewAndStale(g.log, v);
  }

  method RegisteredBelow(v: Session, p: Session, x: TrackName, y: TrackName) returns (ranking: PropertyRanking)
    requires v != p && x != y
    ensures fresh(ranking) && ranking.Valid() && ranking.Exact() && !ranking.Replays() && v !in ranking.published
    ensures var r := ranking.standing.ranked; |r| == 2 && r[0].name == y && r[1].name == x
    ensures 1 in ranking.groups && v in ranking.groups[1].sessions && x in Replay(ranking.groups[1].log, v)
  {
    ranking := SentAndEnded(v, p, x, y);
    ghost var groups := ranking.groups;
    ghost var rank := RegisterSecond(ranking, x, 1, p);
    assert v !in ranking.published && x in Replay(groups[1].log, v);
    assert HeldFromBefore(groups, ranking.published, x, rank);
  }

  lemma FirstOfTwo(r: Ranking)
    requires |r| == 2
    ensures Top(r, 1) == {r[0].name} && Names(r) == {r[0].name, r[1].name}
  {
    assert First(r, 1) == [r[0]] && r == [r[0]] + [r[1]];
    NamesOne(r[0]);
    NamesOne(r[1]);
    NamesAppend([r[0]], [r[1]]);
  }

  method SentAndEnded(v: Session, p: Session, x: TrackName, y: TrackName) returns (ranking: PropertyRanking)
    requires v != p && x != y
    ensures fresh(ranking) && ranking.Valid() && ranking.Exact() && ranking.Replays()
    ensures ranking.maxDeselected == 0 && v !in ranking.published
    ensures |ranking.standing.ranked| == 1 && ranking.standing.ranked[0].name == y && ranking.standing.ranked[0].key.value == 3
    ensures 1 in ranking.groups && v in ranking.groups[1].sessions && x in Replay(ranking.groups[1].log, v)
  {
    ranking := SentFirst(v, p, x, y);
    ghost var rank := ranking.RemoveTrack(x);
  }

  method SentFirst(v: Session, p: Session, x: TrackName, y: TrackName) returns (ranking: PropertyRanking)
    requires v != p && x != y
    ensures fresh(ranking) && ranking.Valid() && ranking.Exact() && ranking.Replays()
    ensures ranking.maxDeselected == 0 && v !in ranking.published
    ensures var r := ranking.standing.ranked;
      |r| == 2 && r[0].name == x && r[1].name == y && r[1].key.value == 3
    ensures 1 in ranking.groups && v in ranking.groups[1].sessions && x in Replay(ranking.groups[1].log, v)
  {
    ranking := WithOneTrack(v, p, y);
    ghost var groups := ranking.groups;
    ghost var rank := RegisterSecond(ranking, x, 5, p);
    NotHeldAbove(groups, ranking.published, x);
    ghost var r, g := ranking.standing.ranked, ranking.groups[1];
    assert ViewersSee(Top(r, 1), g, ranking.published);
    InTop(r, 0, 1);
    ReplayIsViewAndStale(g.log, v);
  }

  method WithOneTrack(v: Session, p: Session, y: TrackName) returns (ranking: PropertyRanking)
    requires v != p
    ensures fresh(ranking) && ranking.Valid() && ranking.Exact() && ranking.Replays()
    ensures ranking.maxDeselected == 0 && v !in ranking.published
    ensures |ranking.standing.ranked| == 1 && ranking.standing.ranked[0].name == y && ranking.standing.ranked[0].key.value == 3
    ensures ranking.groups.Keys == {1} && v in ranking.groups[1].sessions
  {
    ranking := WithoutViewers(p, y);
    ranking.AddSessionToTopNGroup(1, v, false);
  }

  method WithoutViewers(p: Session, y: TrackName) returns (ranking: PropertyRanking)
    ensures fresh(ranking) && ranking.Valid() && ranking.Exact() && ranking.Replays()
    ensures ranking.maxDeselected == 0 && ranking.published == {p} && ranking.groups == map[]
    ensures |ranking.standing.ranked| == 1 && ranking.standing.ranked[0].name == y && ranking.standing.ranked[0].key.value == 3
  {
    ranking := new PropertyRanking(0, false);
    assert y !in ranking.standing.index;
    ghost var rank := ranking.RegisterTrack(y, Some(3), p);
    assert ranking.groups == map[];
  }
}
