/**
 * A group of sessions that subscribe to the same number N of tracks: which tracks
 * are selected for its viewers, what each publisher-subscriber is sent, and the
 * callbacks fired so far.
 */
module TopNGroups {
  import opened Common
  import opened RankedLists

  // What the sessions of a group were told, in order. `End` is the end of a track,
  // which reaches its subscribers without a callback of the ranking.
  datatype Event =
    | Join(to: Session)
    | Select(name: TrackName, to: Session)
    | Evict(name: TrackName, to: Session)
    | End(name: TrackName)

  datatype TrackState = Selected | Deselected

  datatype SessionInfo = SessionInfo(forward: bool, waterline: Option<RankKey>, selected: set<TrackName>)

  datatype Group = Group(
    sessions: map<Session, SessionInfo>, states: map<TrackName, TrackState>, queue: seq<TrackName>, log: seq<Event>)

  // ---- What a session has been sent -----------------------------------------------

  function Apply(view: set<TrackName>, e: Event, v: Session): set<TrackName> {
    match e
    case Join(to) => if to == v then {} else view
    case Select(x, to) => if to == v then view + {x} else view
    case Evict(x, to) => if to == v then view - {x} else view
    case End(x) => view - {x}
  }

  // The tracks a session holds after replaying its callbacks.
  function View(log: seq<Event>, v: Session): set<TrackName> {
    if |log| == 0 then {} else Apply(View(log[..|log| - 1], v), log[|log| - 1], v)
  }

  lemma ViewAppend(log: seq<Event>, e: Event, v: Session)
    ensures View(log + [e], v) == Apply(View(log, v), e, v)
  {
    assert (log + [e])[..|log|] == log;
  }

  // The same replay by a receiver that is not told when a track ends.
  function Replay(log: seq<Event>, v: Session): set<TrackName> {
    if |log| == 0 then {}
    else
      var earlier, e := Replay(log[..|log| - 1], v), log[|log| - 1];
      if e.End? then earlier else Apply(earlier, e, v)
  }

  // The tracks that ended while v held them and that it was told nothing about since.
  function Stale(log: seq<Event>, v: Session): set<TrackName> {
    if |log| == 0 then {}
    else
      var before := log[..|log| - 1];
      match log[|log| - 1]
      case Join(to) => if to == v then {} else Stale(before, v)
      case Select(x, to) => if to == v then Stale(before, v) - {x} else Stale(before, v)
      case Evict(x, to) => if to == v then Stale(before, v) - {x} else Stale(before, v)
      case End(x) => if x in View(before, v) then Stale(before, v) + {x} else Stale(before, v)
  }

  lemma {:induction false} ReplayIsViewAndStale(log: seq<Event>, v: Session)
    ensures Replay(log, v) == View(log, v) + Stale(log, v)
    ensures View(log, v) !! Stale(log, v)
  {
    if |log| > 0 {
      ReplayIsViewAndStale(log[..|log| - 1], v);
    }
  }

  lemma ReplayExact(log: seq<Event>, v: Session, registered: set<TrackName>)
    requires View(log, v) <= registered
    ensures Replay(log, v) * registered == View(log, v) <==> Stale(log, v) * registered == {}
  {
    ReplayIsViewAndStale(log, v);
    assert Replay(log, v) * registered == View(log, v) + Stale(log, v) * registered;
  }

  // What was sent stays sent, and no track ended since.
  ghost predicate Continues(log0: seq<Event>, log: seq<Event>) {
    log0 <= log && forall i :: |log0| <= i < |log| ==> !log[i].End?
  }

  // Nothing was sent to v since.
  ghost predicate NothingTo(log0: seq<Event>, log: seq<Event>, v: Session) {
    forall i :: |log0| <= i < |log| ==> !log[i].End? && log[i].to != v
  }

  lemma {:induction false} StaleShrinks(log0: seq<Event>, log: seq<Event>, v: Session)
    requires Continues(log0, log)
    ensures Stale(log, v) <= Stale(log0, v)
    decreases |log|
  {
    if |log| > |log0| {
      StaleShrinks(log0, log[..|log| - 1], v);
      assert !log[|log| - 1].End?;
    } else {
      assert log == log0;
    }
  }

  lemma {:induction false} NothingChanges(log0: seq<Event>, log: seq<Event>, v: Session)
    requires Continues(log0, log) && NothingTo(log0, log, v)
    ensures Replay(log, v) == Replay(log0, v)
    decreases |log|
  {
    if |log| > |log0| {
      NothingChanges(log0, log[..|log| - 1], v);
      assert !log[|log| - 1].End? && log[|log| - 1].to != v;
    } else {
      assert log == log0;
    }
  }

  // Replaying its callbacks alone, a viewer holds the first n of the registered tracks.
  ghost predicate ReplaySees(r: Ranking, n: nat, log: seq<Event>, v: Session) {
    Replay(log, v) * Names(r) == Top(r, n)
  }

  lemma TopIsRegistered(r: Ranking, n: nat)
    ensures Top(r, n) <= Names(r)
  {
  }

  /**
   * A registration keeps the replay of a viewer right exactly when the viewer is told
   * of the track, or does not hold it any more from an earlier registration.
   */
  lemma RegisterReplay(before: Ranking, r: Ranking, n: nat, rank: nat, log0: seq<Event>, log: seq<Event>, v: Session)
    requires Distinct(before) && Distinct(r) && rank <= |before| && rank < |r|
    requires New(before, r[rank]) && r == InsertAt(before, rank, r[rank])
    requires View(log0, v) == Top(before, n) && View(log, v) == Top(r, n) && ReplaySees(before, n, log0, v)
    requires Continues(log0, log) && (rank >= n ==> NothingTo(log0, log, v))
    ensures ReplaySees(r, n, log, v) <==> rank < n || r[rank].name !in Replay(log0, v)
  {
    var x := r[rank].name;
    StaleShrinks(log0, log, v);
    TopIsRegistered(before, n);
    TopIsRegistered(r, n);
    ReplayExact(log0, v, Names(before));
    ReplayExact(log, v, Names(r));
    ReplayIsViewAndStale(log, v);
    InsertNames(before, rank, r[rank]);
    InTop(r, rank, n);
    if rank >= n {
      NothingChanges(log0, log, v);
    }
  }

  /** Whatever registers no track keeps the replay of a viewer right. */
  lemma ReplayKept(before: Ranking, r: Ranking, n: nat, log0: seq<Event>, log: seq<Event>, v: Session)
    requires Names(r) <= Names(before)
    requires View(log0, v) == Top(before, n) && View(log, v) == Top(r, n) && ReplaySees(before, n, log0, v)
    requires Continues(log0, log) || exists x :: x !in Names(r) && Continues(log0 + [End(x)], log)
    ensures ReplaySees(r, n, log, v)
  {
    TopIsRegistered(before, n);
    TopIsRegistered(r, n);
    ReplayExact(log0, v, Names(before));
    ReplayExact(log, v, Names(r));
    if Continues(log0, log) {
      StaleShrinks(log0, log, v);
    } else {
      var x :| x !in Names(r) && Continues(log0 + [End(x)], log);
      StaleShrinks(log0 + [End(x)], log, v);
      assert (log0 + [End(x)])[..|log0|] == log0;
      assert Stale(log0 + [End(x)], v) <= Stale(log0, v) + {x};
    }
  }

  // ---- Conditions on a group --------------------------------------------------------

  // Exactly the first n tracks are selected and nothing else is remembered.
  ghost predicate Settled(r: Ranking, n: nat, g: Group) {
    g.queue == [] && g.states.Keys == Top(r, n) && forall x :: x in g.states ==> g.states[x] == Selected
  }

  // Every session that is not a publisher holds exactly the first n tracks.
  ghost predicate ViewersSee(names: set<TrackName>, g: Group, publishers: set<Session>) {
    forall v :: v in g.sessions && v !in publishers ==> View(g.log, v) == names
  }

  // What a publisher-subscriber is sent: a count of zero is never reached, so that it
  // selects every track of others.
  ghost function Wanted(r: Ranking, s: Session, n: nat): set<TrackName> {
    if n == 0 then Names(NonSelf(r, s)) else PersonalTop(r, s, n)
  }

  ghost predicate PublishersServed(r: Ranking, n: nat, g: Group, publishers: set<Session>) {
    forall s :: s in g.sessions && s in publishers ==> g.sessions[s].selected == Wanted(r, s, n)
  }

  /** A publisher-subscriber is sent its first n tracks of others exactly when n is positive or there are none. */
  lemma WantedIsPersonalTop(r: Ranking, s: Session, n: nat)
    ensures Wanted(r, s, n) == PersonalTop(r, s, n) <==> n > 0 || NonSelf(r, s) == []
  {
    if n == 0 && NonSelf(r, s) != [] {
      assert NonSelf(r, s)[0].name in Wanted(r, s, n);
    }
  }

  // ---- Reconciling a publisher-subscriber -------------------------------------------

  lemma {:induction false} NonSelfSorted(r: Ranking, s: Session)
    requires Sorted(r)
    ensures Sorted(NonSelf(r, s))
    ensures forall k :: 0 <= k < |NonSelf(r, s)| ==> NonSelf(r, s)[k] in r && NonSelf(r, s)[k].publisher != s
    ensures forall i :: 0 <= i < |r| && r[i].publisher != s ==> r[i] in NonSelf(r, s)
  {
    if |r| > 0 {
      NonSelfSorted(r[1..], s);
      assert forall i :: 0 <= i < |r| - 1 ==> r[1..][i] == r[i + 1];
    }
  }

  // The key of the n-th track of others, or none if there are fewer.
  method ComputeWaterlineKey(r: Ranking, s: Session, n: nat) returns (key: Option<RankKey>)
    ensures key == if 0 < n <= |NonSelf(r, s)| then Some(NonSelf(r, s)[n - 1].key) else None
  {
    var count := 0;
    for i := 0 to |r|
      invariant count == |NonSelf(r[..i], s)| && (n > 0 ==> count < n)
    {
      NonSelfAppend(r[..i], [r[i]], s);
      assert r[..i + 1] == r[..i] + [r[i]];
      assert [r[i]][1..] == [];
      if r[i].publisher != s {
        count := count + 1;
        if count == n {
          NonSelfAppend(r[..i + 1], r[i + 1..], s);
          assert r[..i + 1] + r[i + 1..] == r;
          return Some(r[i].key);
        }
      }
    }
    assert r[..|r|] == r;
    return None;
  }

  // key is at or above the waterline.
  predicate AtLeast(key: RankKey, waterline: Option<RankKey>) {
    waterline.None? || key == waterline.value || key.Above(waterline.value)
  }

  // The tracks of others at or above the waterline are the first n.
  lemma AboveWaterline(r: Ranking, s: Session, n: nat, waterline: Option<RankKey>, i: nat)
    requires Sorted(r) && Distinct(r) && i < |r| && r[i].publisher != s
    requires waterline == if 0 < n <= |NonSelf(r, s)| then Some(NonSelf(r, s)[n - 1].key) else None
    ensures r[i].name in Wanted(r, s, n) <==> AtLeast(r[i].key, waterline)
  {
    NonSelfSorted(r, s);
    var others := NonSelf(r, s);
    var k :| 0 <= k < |others| && others[k] == r[i];
    NonSelfDistinct(r, s);
    if n > 0 {
      InTop(others, k, n);
      if n <= |others| {
        AtLeastRank(others, k, n);
      }
    } else {
      assert others[k].name in Names(others);
    }
  }

  lemma AtLeastRank(r: Ranking, k: nat, n: nat)
    requires Sorted(r) && k < |r| && 0 < n <= |r|
    ensures AtLeast(r[k].key, Some(r[n - 1].key)) <==> k < n
  {
    if k < n - 1 {
      assert r[k].key.Above(r[n - 1].key);
    } else if k > n - 1 {
      assert r[n - 1].key.Above(r[k].key);
    }
  }

  lemma {:induction false} NonSelfAmong(r: Ranking, s: Session)
    ensures forall k :: 0 <= k < |NonSelf(r, s)| ==> NonSelf(r, s)[k] in r
  {
    if |r| > 0 {
      NonSelfAmong(r[1..], s);
    }
  }

  lemma {:induction false} NonSelfDistinct(r: Ranking, s: Session)
    requires Distinct(r)
    ensures Distinct(NonSelf(r, s))
  {
    if |r| > 0 {
      NonSelfDistinct(r[1..], s);
      NonSelfAmong(r[1..], s);
      assert forall i :: 0 <= i < |r| - 1 ==> r[1..][i] == r[i + 1];
    }
  }

  method NowSelected(r: Ranking, s: Session, n: nat, waterline: Option<RankKey>) returns (now: set<TrackName>)
    requires Sorted(r) && Distinct(r)
    requires waterline == if 0 < n <= |NonSelf(r, s)| then Some(NonSelf(r, s)[n - 1].key) else None
    ensures now == Wanted(r, s, n)
  {
    now := {};
    for i := 0 to |r|
      invariant now == set k | 0 <= k < i && r[k].publisher != s && AtLeast(r[k].key, waterline) :: r[k].name
    {
      if r[i].publisher != s && AtLeast(r[i].key, waterline) {
        now := now + {r[i].name};
      }
    }
    CollectedIsWanted(r, s, n, waterline);
  }

  lemma CollectedIsWanted(r: Ranking, s: Session, n: nat, waterline: Option<RankKey>)
    requires Sorted(r) && Distinct(r)
    requires waterline == if 0 < n <= |NonSelf(r, s)| then Some(NonSelf(r, s)[n - 1].key) else None
    ensures (set k | 0 <= k < |r| && r[k].publisher != s && AtLeast(r[k].key, waterline) :: r[k].name) == Wanted(r, s, n)
  {
    var collected := set k | 0 <= k < |r| && r[k].publisher != s && AtLeast(r[k].key, waterline) :: r[k].name;
    forall x | x in collected ensures x in Wanted(r, s, n) {
      var k :| 0 <= k < |r| && r[k].publisher != s && AtLeast(r[k].key, waterline) && r[k].name == x;
      AboveWaterline(r, s, n, waterline, k);
    }
    forall x | x in Wanted(r, s, n) ensures x in collected {
      var i := RankOfWanted(r, s, n, x);
      AboveWaterline(r, s, n, waterline, i);
      assert r[i].name in collected;
    }
  }

  // Where a wanted track stands in the ranking.
  lemma RankOfWanted(r: Ranking, s: Session, n: nat, x: TrackName) returns (i: nat)
    requires Sorted(r) && x in Wanted(r, s, n)
    ensures i < |r| && r[i].name == x && r[i].publisher != s
  {
    NonSelfSorted(r, s);
    var k :| 0 <= k < |NonSelf(r, s)| && NonSelf(r, s)[k].name == x;
    i :| 0 <= i < |r| && r[i] == NonSelf(r, s)[k];
  }

  // ---- Callbacks ----------------------------------------------------------------------

  // What was sent stays sent, and what was sent since went to sessions of a set.
  ghost predicate SentTo(log0: seq<Event>, log: seq<Event>, to: set<Session>) {
    log0 <= log && forall i :: |log0| <= i < |log| ==> !log[i].End? && log[i].to in to
  }

  lemma SentFurther(log0: seq<Event>, log1: seq<Event>, log: seq<Event>, a: set<Session>, b: set<Session>)
    requires SentTo(log0, log1, a) && SentTo(log1, log, b)
    ensures SentTo(log0, log, a + b) && Continues(log0, log)
  {
    forall i | |log0| <= i < |log| ensures !log[i].End? && log[i].to in a + b {
      if i < |log1| {
        assert log[i] == log1[i];
      }
    }
  }

  lemma ContinuesFurther(log0: seq<Event>, log1: seq<Event>, log: seq<Event>)
    requires Continues(log0, log1) && Continues(log1, log)
    ensures Continues(log0, log)
  {
    forall i | |log0| <= i < |log| ensures !log[i].End? {
      if i < |log1| {
        assert log[i] == log1[i];
      }
    }
  }

  // Tells s to drop, or to take, every track of a set.
  method Announce(log0: seq<Event>, names: set<TrackName>, s: Session, selected: bool) returns (log: seq<Event>)
    ensures forall v :: v != s ==> View(log, v) == View(log0, v)
    ensures View(log, s) == if selected then View(log0, s) + names else View(log0, s) - names
    ensures SentTo(log0, log, {s})
  {
    log := log0;
    var todo := names;
    while todo != {}
      invariant todo <= names && SentTo(log0, log, {s})
      invariant forall v :: v != s ==> View(log, v) == View(log0, v)
      invariant View(log, s) == if selected then View(log0, s) + (names - todo) else View(log0, s) - (names - todo)
    {
      var x :| x in todo;
      var e := if selected then Select(x, s) else Evict(x, s);
      forall v ensures View(log + [e], v) == Apply(View(log, v), e, v) { ViewAppend(log, e, v); }
      log := log + [e];
      todo := todo - {x};
    }
  }

  // Tells every session of the group to drop a track.
  method EvictFromAll(log0: seq<Event>, sessions: set<Session>, x: TrackName) returns (log: seq<Event>)
    ensures forall v :: View(log, v) == if v in sessions then View(log0, v) - {x} else View(log0, v)
    ensures Continues(log0, log)
  {
    log := log0;
    var todo := sessions;
    while todo != {}
      invariant todo <= sessions && Continues(log0, log)
      invariant forall v :: View(log, v) == if v in sessions - todo then View(log0, v) - {x} else View(log0, v)
    {
      var s :| s in todo;
      forall v ensures View(log + [Evict(x, s)], v) == Apply(View(log, v), Evict(x, s), v) {
        ViewAppend(log, Evict(x, s), v);
      }
      log := log + [Evict(x, s)];
      todo := todo - {s};
    }
  }

  /** Brings a publisher-subscriber up to date and tells it the difference. */
  method ReconcilePublisherSelection(r: Ranking, n: nat, s: Session, info0: SessionInfo, log0: seq<Event>)
    returns (info: SessionInfo, log: seq<Event>)
    requires Sorted(r) && Distinct(r)
    ensures info.selected == Wanted(r, s, n) && info.forward == info0.forward
    ensures info.waterline == if 0 < n <= |NonSelf(r, s)| then Some(NonSelf(r, s)[n - 1].key) else None
    ensures forall v :: v != s ==> View(log, v) == View(log0, v)
    ensures View(log, s) == View(log0, s) - (info0.selected - info.selected) + (info.selected - info0.selected)
    ensures SentTo(log0, log, {s})
  {
    var waterline := ComputeWaterlineKey(r, s, n);
    var now := NowSelected(r, s, n, waterline);
    var dropped := Announce(log0, info0.selected - now, s, false);
    log := Announce(dropped, now - info0.selected, s, true);
    SentFurther(log0, dropped, log, {s}, {s});
    info := info0.(waterline := waterline, selected := now);
  }

  // ---- Steps on a group ----------------------------------------------------------------

  // A publisher-subscriber is told the difference between what it was and is sent.
  ghost predicate ToldDifference(g0: Group, g: Group, s: Session)
    requires s in g0.sessions && s in g.sessions
  {
    var before, after := g0.sessions[s].selected, g.sessions[s].selected;
    View(g.log, s) == View(g0.log, s) - (before - after) + (after - before)
  }

  // Replaying its callbacks, a publisher-subscriber holds what it is taken to be sent.
  ghost predicate Told(g: Group, s: Session)
    requires s in g.sessions
  {
    View(g.log, s) == g.sessions[s].selected
  }

  // What a visit to session s does.
  ghost predicate Visited(
    r: Ranking, n: nat, publishers: set<Session>, g0: Group, g: Group, except: Option<Session>, x: TrackName, announce: bool,
    s: Session
  )
    requires s in g0.sessions && s in g.sessions
  {
    if s !in publishers then
      && g.sessions[s] == g0.sessions[s]
      && View(g.log, s) == View(g0.log, s) + (if announce then {x} else {})
      && Replay(g.log, s) == Replay(g0.log, s) + if announce then {x} else {}
    else if except == Some(s) then g.sessions[s] == g0.sessions[s] && View(g.log, s) == View(g0.log, s)
    else g.sessions[s].selected == Wanted(r, s, n) && ToldDifference(g0, g, s)
  }

  // Nothing changes for v.
  ghost predicate SameFor(g0: Group, g: Group, v: Session)
    requires v in g0.sessions && v in g.sessions
  {
    g.sessions[v] == g0.sessions[v] && View(g.log, v) == View(g0.log, v) && Replay(g.log, v) == Replay(g0.log, v)
  }

  // Those a visit may send anything to.
  ghost function Addressed(sessions: set<Session>, publishers: set<Session>, announce: bool): set<Session> {
    if announce then sessions else sessions * publishers
  }

  method VisitOne(
    r: Ranking, n: nat, publishers: set<Session>, g0: Group, except: Option<Session>, x: TrackName, announce: bool, s: Session
  ) returns (g: Group)
    requires Sorted(r) && Distinct(r) && s in g0.sessions
    ensures g.sessions.Keys == g0.sessions.Keys && g.states == g0.states && g.queue == g0.queue
    ensures forall v :: v in g.sessions && v != s ==> SameFor(g0, g, v)
    ensures Visited(r, n, publishers, g0, g, except, x, announce, s)
    ensures SentTo(g0.log, g.log, Addressed({s}, publishers, announce))
  {
    g := g0;
    if s in publishers {
      if except != Some(s) {
        var info, log := ReconcilePublisherSelection(r, n, s, g.sessions[s], g.log);
        g := g.(sessions := g.sessions[s := info], log := log);
      }
    } else if announce {
      forall v ensures View(g.log + [Select(x, s)], v) == Apply(View(g.log, v), Select(x, s), v) {
        ViewAppend(g.log, Select(x, s), v);
      }
      assert (g.log + [Select(x, s)])[..|g.log|] == g.log;
      g := g.(log := g.log + [Select(x, s)]);
    }
    forall v | v in g.sessions && v != s ensures Replay(g.log, v) == Replay(g0.log, v) {
      NothingChanges(g0.log, g.log, v);
    }
  }

  lemma AddressedFurther(
    log0: seq<Event>, log1: seq<Event>, log: seq<Event>, sessions: set<Session>, publishers: set<Session>, announce: bool, s: Session
  )
    requires SentTo(log0, log1, Addressed(sessions, publishers, announce)) && s in sessions
    requires SentTo(log1, log, Addressed({s}, publishers, announce))
    ensures SentTo(log0, log, Addressed(sessions, publishers, announce))
  {
    var to := Addressed(sessions, publishers, announce);
    SentFurther(log0, log1, log, to, Addressed({s}, publishers, announce));
    assert to + Addressed({s}, publishers, announce) == to;
  }

  // A session not visited yet is visited now, and one visited before is left alone.
  lemma VisitedFurther(
    r: Ranking, n: nat, publishers: set<Session>, g0: Group, g1: Group, g: Group, except: Option<Session>, x: TrackName,
    announce: bool, s: Session, v: Session
  )
    requires v in g0.sessions && v in g1.sessions && v in g.sessions
    requires v != s ==>
      && Visited(r, n, publishers, g0, g1, except, x, announce, v) && SameFor(g1, g, v)
    requires v == s ==>
      && SameFor(g0, g1, v)
      && Visited(r, n, publishers, g1, g, except, x, announce, v)
    ensures Visited(r, n, publishers, g0, g, except, x, announce, v)
  {
  }

  // Reconciles the publisher-subscribers, but for one, and tells the viewers of a track.
  method VisitSessions(
    r: Ranking, n: nat, publishers: set<Session>, g0: Group, except: Option<Session>, x: TrackName, announce: bool
  ) returns (g: Group)
    requires Sorted(r) && Distinct(r)
    ensures g.sessions.Keys == g0.sessions.Keys && g.states == g0.states && g.queue == g0.queue
    ensures forall s :: s in g.sessions ==> Visited(r, n, publishers, g0, g, except, x, announce, s)
    ensures SentTo(g0.log, g.log, Addressed(g0.sessions.Keys, publishers, announce)) && Continues(g0.log, g.log)
  {
    g := g0;
    var todo := g0.sessions.Keys;
    while todo != {}
      invariant todo <= g0.sessions.Keys
      invariant g.sessions.Keys == g0.sessions.Keys && g.states == g0.states && g.queue == g0.queue
      invariant forall s :: s in todo ==> SameFor(g0, g, s)
      invariant forall s :: s in g0.sessions && s !in todo ==> Visited(r, n, publishers, g0, g, except, x, announce, s)
      invariant SentTo(g0.log, g.log, Addressed(g0.sessions.Keys, publishers, announce))
    {
      var s :| s in todo;
      ghost var g1 := g;
      g := VisitOne(r, n, publishers, g, except, x, announce, s);
      AddressedFurther(g0.log, g1.log, g.log, g0.sessions.Keys, publishers, announce, s);
      todo := todo - {s};
      forall v | v in g0.sessions && v !in todo ensures Visited(r, n, publishers, g0, g, except, x, announce, v) {
        VisitedFurther(r, n, publishers, g0, g1, g, except, x, announce, s, v);
      }
    }
  }

  // How many entries of a queue are over its limit.
  function Excess(queue: seq<TrackName>, limit: nat): nat {
    if |queue| > limit then |queue| - limit else 0
  }

  // The tracks that a queue over its limit gives up, oldest first.
  ghost function Overflow(queue: seq<TrackName>, limit: nat): set<TrackName> {
    Elems(queue[..Excess(queue, limit)])
  }

  // Evicts the oldest entries of the queue until it is within its limit.
  method TrimDeselectedQueue(g0: Group, limit: nat) returns (g: Group)
    ensures g.sessions == g0.sessions && Continues(g0.log, g.log)
    ensures g.queue == g0.queue[Excess(g0.queue, limit)..]
    ensures g.states == g0.states - Overflow(g0.queue, limit)
    ensures forall v :: v in g.sessions ==> View(g.log, v) == View(g0.log, v) - Overflow(g0.queue, limit)
  {
    g := g0;
    ghost var k := 0;
    while |g.queue| > limit
      invariant 0 <= k <= |g0.queue| && g.queue == g0.queue[k..] && (k > 0 ==> |g.queue| >= limit)
      invariant g.sessions == g0.sessions && Continues(g0.log, g.log)
      invariant g.states == g0.states - Elems(g0.queue[..k])
      invariant forall v :: v in g.sessions ==> View(g.log, v) == View(g0.log, v) - Elems(g0.queue[..k])
      decreases |g.queue|
    {
      var x := g.queue[0];
      assert g0.queue[..k + 1] == g0.queue[..k] + [x];
      assert Elems(g0.queue[..k + 1]) == Elems(g0.queue[..k]) + {x};
      var log := EvictFromAll(g.log, g.sessions.Keys, x);
      ContinuesFurther(g0.log, g.log, log);
      g := g.(queue := g.queue[1..], states := g.states - {x}, log := log);
      k := k + 1;
    }
  }

  lemma NothingKept(x: TrackName)
    ensures Overflow([] + [x], 0) == {x} && Excess([] + [x], 0) == 1
  {
    assert ([] + [x])[..1] == [x] && Elems([x]) == {x};
  }

  // Deselects a track and lets the queue overflow.
  method DemoteTrack(g0: Group, x: TrackName, limit: nat) returns (g: Group)
    ensures g.sessions == g0.sessions && Continues(g0.log, g.log)
    ensures var queue, out := g0.queue + [x], Overflow(g0.queue + [x], limit);
      && g.queue == queue[Excess(queue, limit)..] && g.states == g0.states[x := Deselected] - out
      && forall v :: v in g.sessions ==> View(g.log, v) == View(g0.log, v) - out
    ensures limit == 0 && g0.queue == [] ==>
      && g.queue == [] && g.states == g0.states - {x}
      && forall v :: v in g.sessions ==> View(g.log, v) == View(g0.log, v) - {x}
  {
    g := TrimDeselectedQueue(g0.(states := g0.states[x := Deselected], queue := g0.queue + [x]), limit);
    if limit == 0 && g0.queue == [] {
      NothingKept(x);
    }
  }

  // The tracks given up when the track at rank n, if it is selected, is demoted.
  ghost function GivenUp(r: Ranking, n: nat, g: Group, limit: nat): set<TrackName> {
    if n < |r| && r[n].name in g.states && g.states[r[n].name] == Selected then Overflow(g.queue + [r[n].name], limit) else {}
  }

  // Deselects the track that was pushed out to rank n, if it was selected.
  method DemoteTrackAtRank(r: Ranking, n: nat, g0: Group, limit: nat) returns (g: Group)
    ensures g.sessions == g0.sessions && Continues(g0.log, g.log)
    ensures forall v :: v in g.sessions ==> View(g.log, v) == View(g0.log, v) - GivenUp(r, n, g0, limit)
    ensures n < |r| && r[n].name in g0.states && g0.states[r[n].name] == Selected ==>
      var queue := g0.queue + [r[n].name];
      g.queue == queue[Excess(queue, limit)..] && g.states == g0.states[r[n].name := Deselected] - GivenUp(r, n, g0, limit)
    ensures !(n < |r| && r[n].name in g0.states && g0.states[r[n].name] == Selected) ==> g == g0
    ensures limit == 0 && g0.queue == [] ==> g.queue == [] && g.states == g0.states - GivenUp(r, n, g0, limit)
  {
    g := g0;
    if n < |r| && r[n].name in g.states && g.states[r[n].name] == Selected {
      g := DemoteTrack(g, r[n].name, limit);
      NothingKept(r[n].name);
    }
  }

  // Exact before, so exact after: the selected tracks and what the viewers hold.
  ghost predicate Follows(before: Ranking, after: Ranking, n: nat, g0: Group, g: Group, publishers: set<Session>) {
    Settled(before, n, g0) ==>
      && Settled(after, n, g)
      && forall v :: v in g0.sessions && v !in publishers && View(g0.log, v) == Top(before, n) ==>
           View(g.log, v) == Top(after, n)
  }

  ghost predicate AllSelected(g: Group) {
    g.queue == [] && forall x :: x in g.states ==> g.states[x] == Selected
  }

  // The tracks pushed out of the first n by an entry: the one now at rank n, if selected.
  ghost function PushedOut(r: Ranking, n: nat, g: Group): set<TrackName> {
    if n < |r| && r[n].name in g.states then {r[n].name} else {}
  }

  // The track at rank n, if it was selected, is deselected and queued; what the queue
  // has no room for is forgotten.
  ghost predicate MadeRoom(r: Ranking, n: nat, g0: Group, g: Group, limit: nat) {
    if n < |r| && r[n].name in g0.states && g0.states[r[n].name] == Selected then
      var queue := g0.queue + [r[n].name];
      g.queue == queue[Excess(queue, limit)..] && g.states == g0.states[r[n].name := Deselected] - Overflow(queue, limit)
    else
      g.queue == g0.queue && g.states == g0.states
  }

  // What the viewers hold after losing some tracks and being sent others.
  ghost predicate ViewersHold(g0: Group, g: Group, publishers: set<Session>, lost: set<TrackName>, sent: set<TrackName>) {
    forall v :: v in g0.sessions && v in g.sessions && v !in publishers ==> View(g.log, v) == View(g0.log, v) - lost + sent
  }

  // A track has been selected: tell the sessions, then make room for it.
  method AnnounceEntry(
    r: Ranking, n: nat, publishers: set<Session>, g0: Group, except: Option<Session>, x: TrackName, limit: nat
  ) returns (g: Group)
    requires Sorted(r) && Distinct(r)
    ensures g.sessions.Keys == g0.sessions.Keys
    ensures forall s :: s in g.sessions && s in publishers ==>
      if except == Some(s) then g.sessions[s] == g0.sessions[s] else g.sessions[s].selected == Wanted(r, s, n)
    ensures limit == 0 && AllSelected(g0) ==>
      && AllSelected(g) && g.states.Keys == g0.states.Keys - PushedOut(r, n, g0)
      && (forall v :: v in g.sessions && v !in publishers ==> View(g.log, v) == View(g0.log, v) + {x} - PushedOut(r, n, g0))
      && (forall v :: v in g.sessions && v in publishers && except == Some(v) ==>
            View(g.log, v) == View(g0.log, v) - PushedOut(r, n, g0))
    ensures Continues(g0.log, g.log) && MadeRoom(r, n, g0, g, limit)
    ensures ViewersHold(g0, g, publishers, GivenUp(r, n, g0, limit), {x} - GivenUp(r, n, g0, limit))
    ensures forall s :: s in g.sessions && s in publishers && Told(g0, s) ==>
      (Told(g, s) <==> GivenUp(r, n, g0, limit) !! g.sessions[s].selected)
  {
    var visited := VisitSessions(r, n, publishers, g0, except, x, true);
    g := DemoteTrackAtRank(r, n, visited, limit);
    ContinuesFurther(g0.log, visited.log, g.log);
    forall s | s in g.sessions && s in publishers && Told(g0, s)
      ensures Told(g, s) <==> GivenUp(r, n, g0, limit) !! g.sessions[s].selected
    {
      assert Told(visited, s);
      TellLess(View(visited.log, s), GivenUp(r, n, g0, limit));
    }
  }

  lemma TellLess(view: set<TrackName>, out: set<TrackName>)
    ensures view - out == view <==> out !! view
  {
    if view - out == view {
      assert forall x :: x in out ==> x !in view;
    }
  }

  // The group with one more track selected.
  function Entered(g: Group, x: TrackName, queue: seq<TrackName>): Group {
    g.(states := g.states[x := Selected], queue := queue)
  }

  // No track is given up that s is still to be sent once the track at a rank is new.
  ghost predicate ToldAfterRegister(r: Ranking, n: nat, g: Group, rank: nat, limit: nat, s: Session)
    requires rank < |r|
  {
    rank >= n || GivenUp(r, n, Entered(g, r[rank].name, g.queue), limit) !! Wanted(r, s, n)
  }

  // When the callbacks of the publisher-subscribers stay right.
  ghost predicate RegisterTold(r: Ranking, n: nat, publishers: set<Session>, g0: Group, g: Group, rank: nat, limit: nat)
    requires rank < |r|
  {
    forall s :: s in g0.sessions && s in g.sessions && s in publishers && Told(g0, s) ==>
      (Told(g, s) <==> ToldAfterRegister(r, n, g0, rank, limit, s))
  }

  // The track that follows is not selected once x is demoted.
  ghost predicate NextFree(g: Group, x: TrackName, next: TrackName, limit: nat) {
    var states := g.states[x := Deselected] - Overflow(g.queue + [x], limit);
    next !in states || states[next] != Selected
  }

  // No track is given up that s is still to be sent once a track has moved. On the way
  // out the track is given up first, so that s may be sent it again.
  ghost predicate ToldAfterMove(r: Ranking, n: nat, g: Group, from: nat, to: nat, limit: nat, s: Session)
    requires to < |r| && s in g.sessions
  {
    var x, mover, sent := r[to].name, r[to].publisher, g.sessions[s].selected;
    if from < n <==> to < n then true
    else if to < n then
      GivenUp(r, n, Entered(g, x, Without(g.queue, x)), limit) !! (if s == mover then sent else Wanted(r, s, n))
    else
      Overflow(g.queue + [x], limit) !!
        sent * if s == mover && !NextFree(g, x, r[n - 1].name, limit) then sent else Wanted(r, s, n)
  }

  ghost predicate MoveTold(
    r: Ranking, n: nat, publishers: set<Session>, g0: Group, g: Group, from: nat, to: nat, limit: nat
  )
    requires to < |r|
  {
    forall s :: s in g0.sessions && s in g.sessions && s in publishers && Told(g0, s) ==>
      (Told(g, s) <==> ToldAfterMove(r, n, g0, from, to, limit, s))
  }

  // What a registration does to the selection and to the viewers, whatever the queue holds.
  ghost predicate RegisterShown(r: Ranking, n: nat, publishers: set<Session>, g0: Group, g: Group, rank: nat, limit: nat)
    requires rank < |r|
  {
    var x := r[rank].name;
    if rank >= n then g.states == g0.states && g.queue == g0.queue && ViewersHold(g0, g, publishers, {}, {})
    else
      var entered := Entered(g0, x, g0.queue);
      var out := GivenUp(r, n, entered, limit);
      MadeRoom(r, n, entered, g, limit) && ViewersHold(g0, g, publishers, out, {x} - out)
  }

  // The same of a move.
  ghost predicate MoveShown(
    r: Ranking, n: nat, publishers: set<Session>, g0: Group, g: Group, from: nat, to: nat, limit: nat
  )
    requires to < |r|
  {
    var x := r[to].name;
    if from < n <==> to < n then g.states == g0.states && g.queue == g0.queue && ViewersHold(g0, g, publishers, {}, {})
    else if to < n then
      var entered := Entered(g0, x, Without(g0.queue, x));
      var out := GivenUp(r, n, entered, limit);
      MadeRoom(r, n, entered, g, limit) && ViewersHold(g0, g, publishers, out, {x} - out)
    else
      var queue, next := g0.queue + [x], r[n - 1].name;
      var out, left := Overflow(queue, limit), queue[Excess(queue, limit)..];
      var states := g0.states[x := Deselected] - out;
      if NextFree(g0, x, next, limit) then
        g.states == states[next := Selected] && g.queue == Without(left, next) && ViewersHold(g0, g, publishers, out, {next})
      else
        g.states == states && g.queue == left && ViewersHold(g0, g, publishers, out, {})
  }

  /**
   * A new track enters a group. The callbacks of a publisher-subscriber stay right
   * exactly when no track is given up that it is still sent.
   */
  method RegisterInGroup(
    ghost before: Ranking, r: Ranking, n: nat, publishers: set<Session>, g0: Group, rank: nat, limit: nat
  ) returns (g: Group)
    requires Sorted(r) && Distinct(r) && Distinct(before)
    requires rank <= |before| && rank < |r| && New(before, r[rank]) && r == InsertAt(before, rank, r[rank])
    ensures g.sessions.Keys == g0.sessions.Keys
    ensures PublishersServed(r, n, g, publishers)
    ensures limit == 0 ==> Follows(before, r, n, g0, g, publishers)
    ensures Continues(g0.log, g.log) && (rank >= n ==> SentTo(g0.log, g.log, g0.sessions.Keys * publishers))
    ensures RegisterTold(r, n, publishers, g0, g, rank, limit)
    ensures RegisterShown(r, n, publishers, g0, g, rank, limit)
  {
    if rank < n {
      g := RegisterAbove(before, r, n, publishers, g0, rank, limit);
    } else {
      g := RegisterBelow(before, r, n, publishers, g0, rank);
    }
  }

  // The track is among the first n: the viewers are told, and the last of them makes room.
  method RegisterAbove(
    ghost before: Ranking, r: Ranking, n: nat, publishers: set<Session>, g0: Group, rank: nat, limit: nat
  ) returns (g: Group)
    requires Sorted(r) && Distinct(r) && Distinct(before)
    requires rank <= |before| && rank < |r| && rank < n && New(before, r[rank]) && r == InsertAt(before, rank, r[rank])
    ensures g.sessions.Keys == g0.sessions.Keys && PublishersServed(r, n, g, publishers) && Continues(g0.log, g.log)
    ensures limit == 0 ==> Follows(before, r, n, g0, g, publishers)
    ensures forall s :: s in g.sessions && s in publishers && Told(g0, s) ==>
      (Told(g, s) <==> GivenUp(r, n, Entered(g0, r[rank].name, g0.queue), limit) !! Wanted(r, s, n))
    ensures RegisterShown(r, n, publishers, g0, g, rank, limit)
  {
    var x := r[rank].name;
    g := AnnounceEntry(r, n, publishers, Entered(g0, x, g0.queue), None, x, limit);
    EntryShiftsTop(before, r, n, rank);
  }

  // The track is below the first n: only the publisher-subscribers are looked at.
  method RegisterBelow(ghost before: Ranking, r: Ranking, n: nat, publishers: set<Session>, g0: Group, rank: nat) returns (g: Group)
    requires Sorted(r) && Distinct(r) && Distinct(before)
    requires rank <= |before| && rank < |r| && rank >= n && New(before, r[rank]) && r == InsertAt(before, rank, r[rank])
    ensures g.sessions.Keys == g0.sessions.Keys && PublishersServed(r, n, g, publishers)
    ensures Follows(before, r, n, g0, g, publishers)
    ensures Continues(g0.log, g.log) && SentTo(g0.log, g.log, g0.sessions.Keys * publishers)
    ensures g.states == g0.states && g.queue == g0.queue && ViewersHold(g0, g, publishers, {}, {})
    ensures forall s :: s in g.sessions && s in publishers && Told(g0, s) ==> Told(g, s)
  {
    g := VisitSessions(r, n, publishers, g0, None, r[rank].name, false);
    TopInsert(before, rank, r[rank], n);
  }

  // Without a deselected queue, what an exact group gives up is the track now at rank n.
  lemma GivenUpIsPushedOut(before: Ranking, r: Ranking, n: nat, g: Group, rank: nat)
    requires Distinct(before) && rank <= |before| && rank < |r| && rank < n
    requires New(before, r[rank]) && r == InsertAt(before, rank, r[rank]) && Settled(before, n, g)
    ensures GivenUp(r, n, Entered(g, r[rank].name, g.queue), 0) == if n < |r| then {r[n].name} else {}
  {
    if n < |r| {
      InsertAtIndex(before, rank, r[rank], n);
      InTop(before, n - 1, n);
      NothingKept(r[n].name);
    }
  }

  // The first n after an insertion above the cut, as a group computes it.
  lemma EntryShiftsTop(before: Ranking, r: Ranking, n: nat, rank: nat)
    requires Distinct(before) && rank <= |before| && rank < |r| && rank < n
    requires New(before, r[rank]) && r == InsertAt(before, rank, r[rank])
    ensures var pushed := if n < |r| && r[n].name in Top(before, n) + {r[rank].name} then {r[n].name} else {};
      Top(r, n) == Top(before, n) + {r[rank].name} - pushed
  {
    TopInsert(before, rank, r[rank], n);
    if n < |r| {
      InsertAtIndex(before, rank, r[rank], n);
      InTop(before, n - 1, n);
    }
  }

  // r is `before` with one track moved from rank i to rank j under a new key.
  ghost predicate IsMove(before: Ranking, r: Ranking, i: nat, j: nat) {
    && Sorted(r) && Distinct(r) && Distinct(before)
    && i < |before| && j < |before| == |r|
    && r == Moved(before, i, j, r[j])
    && r[j].name == before[i].name && r[j].publisher == before[i].publisher
    && Distinct(RemoveAt(before, i)) && New(RemoveAt(before, i), r[j])
  }

  // The sessions after a move: the mover itself may be left as it was.
  ghost predicate MoveServed(r: Ranking, n: nat, g0: Group, g: Group, publishers: set<Session>, mover: Session) {
    && g.sessions.Keys == g0.sessions.Keys
    && forall s :: s in g.sessions && s in publishers ==>
         || g.sessions[s].selected == Wanted(r, s, n)
         || (s == mover && g.sessions[s].selected == g0.sessions[s].selected)
  }

  /** A track moves from one rank to another. */
  method RecomputeGroup(
    ghost before: Ranking, r: Ranking, n: nat, publishers: set<Session>, g0: Group, oldRank: nat, newRank: nat, limit: nat
  ) returns (g: Group)
    requires IsMove(before, r, oldRank, newRank)
    ensures MoveServed(r, n, g0, g, publishers, r[newRank].publisher)
    ensures limit == 0 ==> Follows(before, r, n, g0, g, publishers)
    ensures Continues(g0.log, g.log)
    ensures MoveTold(r, n, publishers, g0, g, oldRank, newRank, limit)
    ensures MoveShown(r, n, publishers, g0, g, oldRank, newRank, limit)
  {
    if oldRank >= n && newRank < n {
      g := MoveIn(before, r, n, publishers, g0, oldRank, newRank, limit);
    } else if oldRank < n && newRank >= n {
      g := MoveOut(before, r, n, publishers, g0, oldRank, newRank, limit);
    } else {
      BesideKeepsTop(before, r, n, oldRank, newRank);
      g := MoveBeside(before, r, n, publishers, g0, r[newRank].publisher, r[newRank].name);
    }
  }

  lemma BesideKeepsTop(before: Ranking, r: Ranking, n: nat, i: nat, j: nat)
    requires IsMove(before, r, i, j) && (i < n <==> j < n)
    ensures Top(r, n) == Top(before, n)
  {
    TopMove(before, i, j, r[j], n);
  }

  // A move on one side of the cut: only the publisher-subscribers are looked at.
  method MoveBeside(
    ghost before: Ranking, r: Ranking, n: nat, publishers: set<Session>, g0: Group, mover: Session, x: TrackName
  ) returns (g: Group)
    requires Sorted(r) && Distinct(r) && Top(r, n) == Top(before, n)
    ensures MoveServed(r, n, g0, g, publishers, mover)
    ensures Follows(before, r, n, g0, g, publishers) && Continues(g0.log, g.log)
    ensures g.states == g0.states && g.queue == g0.queue && ViewersHold(g0, g, publishers, {}, {})
    ensures forall s :: s in g.sessions && s in publishers && Told(g0, s) ==> Told(g, s)
  {
    g := VisitSessions(r, n, publishers, g0, Some(mover), x, false);
  }

  // A move into the first n. The publisher of the moving track is left alone but, like
  // every session of the group, told to drop the track that was pushed out.
  method MoveIn(
    ghost before: Ranking, r: Ranking, n: nat, publishers: set<Session>, g0: Group, oldRank: nat, newRank: nat, limit: nat
  ) returns (g: Group)
    requires IsMove(before, r, oldRank, newRank) && newRank < n <= oldRank
    ensures MoveServed(r, n, g0, g, publishers, r[newRank].publisher)
    ensures limit == 0 ==> Follows(before, r, n, g0, g, publishers)
    ensures limit == 0 && Settled(before, n, g0) ==>
      var s := r[newRank].publisher;
      s in g0.sessions && s in publishers ==>
        n < |r| && g.sessions[s] == g0.sessions[s] && View(g.log, s) == View(g0.log, s) - {r[n].name}
    ensures Continues(g0.log, g.log)
    ensures MoveTold(r, n, publishers, g0, g, oldRank, newRank, limit)
    ensures MoveShown(r, n, publishers, g0, g, oldRank, newRank, limit)
  {
    var x := r[newRank].name;
    var g1 := Entered(g0, x, Without(g0.queue, x));
    g := AnnounceEntry(r, n, publishers, g1, Some(r[newRank].publisher), x, limit);
    MoveInShiftsTop(before, r, n, oldRank, newRank);
  }

  lemma MoveInShiftsTop(before: Ranking, r: Ranking, n: nat, i: nat, j: nat)
    requires IsMove(before, r, i, j) && j < n <= i
    ensures n < |r| && r[n].name in Top(before, n) + {r[j].name}
    ensures Top(r, n) == Top(before, n) + {r[j].name} - {r[n].name}
  {
    TopMove(before, i, j, r[j], n);
    InsertAtIndex(RemoveAt(before, i), j, r[j], n);
    RemoveAtIndex(before, i, n - 1);
    InTop(before, n - 1, n);
  }

  method MoveOut(
    ghost before: Ranking, r: Ranking, n: nat, publishers: set<Session>, g0: Group, oldRank: nat, newRank: nat, limit: nat
  ) returns (g: Group)
    requires IsMove(before, r, oldRank, newRank) && oldRank < n <= newRank
    ensures MoveServed(r, n, g0, g, publishers, r[newRank].publisher)
    ensures limit == 0 ==> Follows(before, r, n, g0, g, publishers)
    ensures Continues(g0.log, g.log)
    ensures MoveTold(r, n, publishers, g0, g, oldRank, newRank, limit)
    ensures MoveShown(r, n, publishers, g0, g, oldRank, newRank, limit)
  {
    var x, next := r[newRank].name, r[n - 1].name;
    MoveOutShiftsTop(before, r, n, oldRank, newRank);
    var demoted := DemoteTrack(g0, x, limit);
    g := AfterDemotion(r, n, publishers, demoted, r[newRank].publisher, x, next);
    ContinuesFurther(g0.log, demoted.log, g.log);
    forall s | s in g.sessions && s in publishers && Told(g0, s)
      ensures Told(g, s) <==> ToldAfterMove(r, n, g0, oldRank, newRank, limit, s)
    {
      TellAgain(g0.sessions[s].selected, g.sessions[s].selected, Overflow(g0.queue + [x], limit));
    }
  }

  // The sessions after a track was demoted: told the difference, then of the track that follows.
  method AfterDemotion(
    r: Ranking, n: nat, publishers: set<Session>, g0: Group, mover: Session, x: TrackName, next: TrackName
  ) returns (g: Group)
    requires Sorted(r) && Distinct(r)
    ensures g.sessions.Keys == g0.sessions.Keys && Continues(g0.log, g.log)
    ensures forall s :: s in g.sessions && s in publishers ==> ToldDifference(g0, g, s)
    ensures forall s :: s in g.sessions && s in publishers ==>
      var free := next !in g0.states || g0.states[next] != Selected;
      g.sessions[s].selected == if s == mover && !free then g0.sessions[s].selected else Wanted(r, s, n)
    ensures var free := next !in g0.states || g0.states[next] != Selected;
      && g.states == (if free then g0.states[next := Selected] else g0.states)
      && g.queue == (if free then Without(g0.queue, next) else g0.queue)
      && forall v :: v in g.sessions && v !in publishers ==> View(g.log, v) == View(g0.log, v) + if free then {next} else {}
  {
    g := VisitSessions(r, n, publishers, g0, Some(mover), x, false);
    if next !in g.states || g.states[next] != Selected {
      ghost var log := g.log;
      g := g.(states := g.states[next := Selected], queue := Without(g.queue, next));
      g := VisitSessions(r, n, publishers, g, None, next, true);
      ContinuesFurther(g0.log, log, g.log);
    }
  }

  lemma TellAgain(before: set<TrackName>, after: set<TrackName>, out: set<TrackName>)
    ensures before - out - (before - after) + (after - before) == after <==> out !! before * after
  {
    var view := before - out - (before - after) + (after - before);
    assert forall x :: x in view <==> x in after && !(x in before && x in out);
  }

  lemma MoveOutShiftsTop(before: Ranking, r: Ranking, n: nat, i: nat, j: nat)
    requires IsMove(before, r, i, j) && i < n <= j
    ensures r[n - 1].name !in Top(before, n)
    ensures Top(r, n) == Top(before, n) - {r[j].name} + {r[n - 1].name}
  {
    TopMove(before, i, j, r[j], n);
    InsertAtIndex(RemoveAt(before, i), j, r[j], n - 1);
    RemoveAtIndex(before, i, n - 1);
    InTop(before, n, n);
  }

  // No viewer is told to drop anything.
  ghost predicate ReplaysGrow(g0: Group, g: Group, publishers: set<Session>) {
    forall v :: v in g0.sessions && v in g.sessions && v !in publishers ==> Replay(g0.log, v) <= Replay(g.log, v)
  }

  // A ranked track that could take a free place.
  predicate Free(g: Group, x: TrackName, exclude: TrackName) {
    x != exclude && (x !in g.states || g.states[x] != Selected)
  }

  // Selects the best ranked track that is not selected yet; k is its rank.
  method PromoteNextAvailableTrack(r: Ranking, n: nat, publishers: set<Session>, g0: Group, exclude: TrackName)
    returns (g: Group, k: nat)
    requires Sorted(r) && Distinct(r)
    ensures k <= |r| && forall j :: 0 <= j < k ==> !Free(g0, r[j].name, exclude)
    ensures k == |r| ==> g == g0
    ensures k < |r| ==>
      && Free(g0, r[k].name, exclude)
      && g.sessions.Keys == g0.sessions.Keys
      && g.states == g0.states[r[k].name := Selected] && g.queue == Without(g0.queue, r[k].name)
      && PublishersServed(r, n, g, publishers)
      && forall v :: v in g.sessions && v !in publishers ==> View(g.log, v) == View(g0.log, v) + {r[k].name}
    ensures Continues(g0.log, g.log) && ReplaysGrow(g0, g, publishers)
    ensures forall s :: s in g.sessions && s in publishers ==> ToldDifference(g0, g, s)
  {
    g, k := g0, 0;
    while k < |r|
      invariant k <= |r| && g == g0
      invariant forall j :: 0 <= j < k ==> !Free(g0, r[j].name, exclude)
    {
      if Free(g, r[k].name, exclude) {
        g := g.(states := g.states[r[k].name := Selected], queue := Without(g.queue, r[k].name));
        g := VisitSessions(r, n, publishers, g, None, r[k].name, true);
        return;
      }
      k := k + 1;
    }
  }

  // With the first n less the removed track selected, the best free rank is n - 1.
  lemma PromotedRank(before: Ranking, rank: nat, r: Ranking, n: nat, k: nat)
    requires Distinct(before) && rank < |before| && rank < n && r == RemoveAt(before, rank) && k <= |r|
    requires forall j :: 0 <= j < k ==> r[j].name in Top(before, n) - {before[rank].name}
    requires k < |r| ==> r[k].name !in Top(before, n) - {before[rank].name}
    ensures k == if n <= |r| then n - 1 else |r|
  {
    forall j | 0 <= j < |r| ensures r[j].name in Top(before, n) - {before[rank].name} <==> j < n - 1 {
      RemoveAtIndex(before, rank, j);
      InTop(before, if j < rank then j else j + 1, n);
    }
    assert k > 0 ==> r[k - 1].name in Top(before, n) - {before[rank].name};
    assert k < |r| ==> k >= n - 1;
  }

  // The first n after a removal, when the best free track takes the place.
  lemma RefilledTop(before: Ranking, rank: nat, r: Ranking, n: nat, k: nat)
    requires Distinct(before) && rank < |before| && rank < n && r == RemoveAt(before, rank) && k <= |r|
    requires forall j :: 0 <= j < k ==> r[j].name in Top(before, n) - {before[rank].name}
    requires k < |r| ==> r[k].name !in Top(before, n) - {before[rank].name}
    ensures k < |r| <==> n <= |r|
    ensures Top(r, n) == Top(before, n) - {before[rank].name} + if k < |r| then {r[k].name} else {}
  {
    PromotedRank(before, rank, r, n, k);
    TopRemove(before, rank, n);
  }

  // Track y is selected, announced to the viewers, and the publisher-subscribers are served.
  ghost predicate TookPlace(r: Ranking, n: nat, publishers: set<Session>, g0: Group, g: Group, y: TrackName) {
    g.states == g0.states[y := Selected] && PublishersServed(r, n, g, publishers) && ViewersHold(g0, g, publishers, {}, {y})
  }

  // The place of x went to the oldest deselected track, or else to the best ranked free one.
  ghost predicate Replaced(r: Ranking, n: nat, publishers: set<Session>, g0: Group, g: Group, x: TrackName) {
    if g0.queue != [] then g.queue == g0.queue[1..] && TookPlace(r, n, publishers, g0, g, g0.queue[0])
    else
      exists k: nat :: BestFree(r, g0, x, k)
        && if k < |r| then g.queue == [] && TookPlace(r, n, publishers, g0, g, r[k].name) else g == g0
  }

  ghost predicate BestFree(r: Ranking, g: Group, x: TrackName, k: nat) {
    && k <= |r| && (k < |r| ==> Free(g, r[k].name, x))
    && forall j :: 0 <= j < k ==> !Free(g, r[j].name, x)
  }

  // What a removal leaves of the selection, whatever the queue holds.
  ghost predicate RemovedFrom(r: Ranking, n: nat, publishers: set<Session>, g0: Group, g: Group, x: TrackName) {
    var ended := g0.(log := g0.log + [End(x)]);
    if x !in g0.states then g == ended
    else
      var left := ended.(states := g0.states - {x}, queue := Without(g0.queue, x));
      if g0.states[x] == Selected then Replaced(r, n, publishers, left, g, x) else g == left
  }

  // Gives the place of a removed track to the oldest deselected track, or else to the
  // best ranked one that is free.
  method Refill(
    ghost before: Ranking, ghost rank: nat, r: Ranking, n: nat, publishers: set<Session>, g0: Group, x: TrackName
  ) returns (g: Group)
    requires Sorted(r) && Distinct(r) && Distinct(before)
    requires rank < |before| && r == RemoveAt(before, rank) && x == before[rank].name
    ensures g.sessions.Keys == g0.sessions.Keys
    ensures AllSelected(g0) && rank < n && g0.states.Keys == Top(before, n) - {x} ==>
      FilledUp(r, n, publishers, g0, g)
    ensures Continues(g0.log, g.log) && ReplaysGrow(g0, g, publishers) && Replaced(r, n, publishers, g0, g, x)
    ensures forall s :: s in g.sessions && s in publishers ==>
      ToldDifference(g0, g, s) && (g.sessions[s].selected == g0.sessions[s].selected || g.sessions[s].selected == Wanted(r, s, n))
  {
    g := g0;
    if g.queue != [] {
      var promoted := g.queue[0];
      g := g.(queue := g.queue[1..], states := g.states[promoted := Selected]);
      g := VisitSessions(r, n, publishers, g, None, promoted, true);
    } else {
      g := RefillByRank(before, rank, r, n, publishers, g, x);
    }
  }

  // The first n are selected again.
  ghost predicate FilledUp(r: Ranking, n: nat, publishers: set<Session>, g0: Group, g: Group) {
    && AllSelected(g) && g.states.Keys == Top(r, n)
    && (forall v :: v in g0.sessions && v in g.sessions && v !in publishers ==>
          View(g.log, v) == View(g0.log, v) + (Top(r, n) - g0.states.Keys))
    && if n <= |r| then PublishersServed(r, n, g, publishers) else g.sessions == g0.sessions
  }

  lemma RankedFills(
    before: Ranking, rank: nat, r: Ranking, n: nat, publishers: set<Session>, g0: Group, g: Group, x: TrackName, k: nat
  )
    requires Distinct(before) && rank < |before| && r == RemoveAt(before, rank) && x == before[rank].name
    requires AllSelected(g0) && rank < n && g0.states.Keys == Top(before, n) - {x} && BestFree(r, g0, x, k)
    requires if k < |r| then g.queue == [] && TookPlace(r, n, publishers, g0, g, r[k].name) else g == g0
    ensures FilledUp(r, n, publishers, g0, g)
  {
    RefilledTop(before, rank, r, n, k);
    assert Top(r, n) - g0.states.Keys == if k < |r| then {r[k].name} else {};
  }

  // The best ranked free track took the place.
  lemma RankedReplaced(r: Ranking, n: nat, publishers: set<Session>, g0: Group, g: Group, x: TrackName, k: nat)
    requires g0.queue == [] && BestFree(r, g0, x, k)
    requires if k < |r| then g.queue == [] && TookPlace(r, n, publishers, g0, g, r[k].name) else g == g0
    ensures Replaced(r, n, publishers, g0, g, x)
  {
  }

  method RefillByRank(
    ghost before: Ranking, ghost rank: nat, r: Ranking, n: nat, publishers: set<Session>, g0: Group, x: TrackName
  ) returns (g: Group)
    requires Sorted(r) && Distinct(r) && Distinct(before)
    requires rank < |before| && r == RemoveAt(before, rank) && x == before[rank].name
    ensures g.sessions.Keys == g0.sessions.Keys && Continues(g0.log, g.log) && ReplaysGrow(g0, g, publishers)
    ensures g0.queue == [] ==> Replaced(r, n, publishers, g0, g, x)
    ensures AllSelected(g0) && rank < n && g0.states.Keys == Top(before, n) - {x} ==>
      FilledUp(r, n, publishers, g0, g)
    ensures forall s :: s in g.sessions && s in publishers ==>
      ToldDifference(g0, g, s) && (g.sessions[s].selected == g0.sessions[s].selected || g.sessions[s].selected == Wanted(r, s, n))
  {
    var k;
    g, k := PromoteNextAvailableTrack(r, n, publishers, g0, x);
    if g0.queue == [] {
      RankedReplaced(r, n, publishers, g0, g, x, k);
    }
    if AllSelected(g0) && rank < n && g0.states.Keys == Top(before, n) - {x} {
      RankedFills(before, rank, r, n, publishers, g0, g, x, k);
    }
  }

  /**
   * A track is gone. Viewers get the next one; publisher-subscribers are looked at
   * only when another track takes its place in the first n.
   */
  method RemoveFromGroup(
    ghost before: Ranking, ghost rank: nat, r: Ranking, n: nat, publishers: set<Session>, g0: Group, x: TrackName, limit: nat
  ) returns (g: Group)
    requires Sorted(r) && Distinct(r) && Distinct(before)
    requires rank < |before| && r == RemoveAt(before, rank) && x == before[rank].name
    ensures g.sessions.Keys == g0.sessions.Keys
    ensures limit == 0 ==> Follows(before, r, n, g0, g, publishers)
    ensures limit == 0 && Settled(before, n, g0) ==>
      if rank < n <= |r| then PublishersServed(r, n, g, publishers) else g.sessions == g0.sessions
    ensures Continues(g0.log + [End(x)], g.log) && ReplaysGrow(g0, g, publishers)
    ensures RemovedFrom(r, n, publishers, g0, g, x)
    ensures forall s :: s in g.sessions && s in publishers && Told(g0, s) ==> View(g.log, s) == g.sessions[s].selected - {x}
  {
    TopRemove(before, rank, n);
    InTop(before, rank, n);
    forall v ensures View(g0.log + [End(x)], v) == View(g0.log, v) - {x} { ViewAppend(g0.log, End(x), v); }
    assert (g0.log + [End(x)])[..|g0.log|] == g0.log;
    g := g0.(log := g0.log + [End(x)]);
    if x !in g.states {
      return;
    }
    var wasSelected := g.states[x] == Selected;
    g := g.(states := g.states - {x}, queue := Without(g.queue, x));
    if wasSelected {
      g := Refill(before, rank, r, n, publishers, g, x);
      forall s | s in g.sessions && s in publishers && Told(g0, s) ensures View(g.log, s) == g.sessions[s].selected - {x} {
        RemovedIsUnwanted(before, rank, s, n);
        TellGone(g0.sessions[s].selected, g.sessions[s].selected, x);
      }
    }
  }

  lemma TellGone(before: set<TrackName>, after: set<TrackName>, x: TrackName)
    requires x !in after || after == before
    ensures before - {x} - (before - after) + (after - before) == after - {x}
  {
  }

  lemma RemovedIsUnwanted(before: Ranking, i: nat, s: Session, n: nat)
    requires Distinct(before) && i < |before|
    ensures before[i].name !in Wanted(RemoveAt(before, i), s, n)
  {
    var r := RemoveAt(before, i);
    NonSelfAmong(r, s);
    forall k | 0 <= k < |NonSelf(r, s)| ensures NonSelf(r, s)[k].name != before[i].name {
      var l :| 0 <= l < |r| && r[l] == NonSelf(r, s)[k];
      RemoveAtIndex(before, i, l);
    }
  }

  lemma NamesUpTo(r: Ranking, i: nat)
    requires i < |r|
    ensures Names(r[..i + 1]) == Names(r[..i]) + {r[i].name}
  {
    NamesAppend(r[..i], [r[i]]);
    assert r[..i + 1] == r[..i] + [r[i]];
    NamesOne(r[i]);
  }

  // A group with no sessions yet.
  method NewGroup(r: Ranking, n: nat) returns (g: Group)
    ensures Settled(r, n, g) && g.sessions == map[]
  {
    var states: map<TrackName, TrackState> := map[];
    for i := 0 to |First(r, n)|
      invariant states.Keys == Names(r[..i]) && forall x :: x in states ==> states[x] == Selected
    {
      NamesUpTo(r, i);
      states := states[r[i].name := Selected];
    }
    g := Group(map[], states, [], []);
  }

  // A viewer joins and is sent the first n tracks.
  method Welcome(r: Ranking, n: nat, log0: seq<Event>, s: Session) returns (log: seq<Event>)
    ensures View(log, s) == Top(r, n) && Replay(log, s) == Top(r, n)
    ensures forall v :: v != s ==> View(log, v) == View(log0, v)
    ensures SentTo(log0, log, {s})
  {
    log := log0 + [Join(s)];
    forall v ensures View(log, v) == Apply(View(log0, v), Join(s), v) { ViewAppend(log0, Join(s), v); }
    assert log[..|log0|] == log0;
    for i := 0 to |First(r, n)|
      invariant forall v :: v != s ==> View(log, v) == View(log0, v)
      invariant View(log, s) == Names(r[..i]) == Replay(log, s) && SentTo(log0, log, {s})
    {
      NamesUpTo(r, i);
      var e := Select(r[i].name, s);
      forall v ensures View(log + [e], v) == Apply(View(log, v), e, v) { ViewAppend(log, e, v); }
      assert (log + [e])[..|log|] == log;
      log := log + [e];
    }
  }

  /** A session joins: a publisher is reconciled, a viewer is sent the first n tracks. */
  method JoinGroup(r: Ranking, n: nat, publishers: set<Session>, g0: Group, s: Session, forward: bool) returns (g: Group)
    requires Sorted(r) && Distinct(r)
    ensures g.sessions.Keys == g0.sessions.Keys + {s} && g.states == g0.states && g.queue == g0.queue
    ensures forall v :: v in g0.sessions && v != s ==> g.sessions[v] == g0.sessions[v] && View(g.log, v) == View(g0.log, v)
    ensures if s in publishers then g.sessions[s].selected == Wanted(r, s, n) else View(g.log, s) == Top(r, n)
    ensures SentTo(g0.log, g.log, {s}) && g.sessions[s].forward == forward
    ensures if s in publishers then Told(g, s) else Replay(g.log, s) == Top(r, n)
  {
    var info, log := SessionInfo(forward, None, {}), g0.log + [Join(s)];
    forall v ensures View(log, v) == Apply(View(g0.log, v), Join(s), v) { ViewAppend(g0.log, Join(s), v); }
    if s in publishers {
      ghost var joined := log;
      info, log := ReconcilePublisherSelection(r, n, s, info, log);
      SentFurther(g0.log, joined, log, {s}, {s});
    } else {
      log := Welcome(r, n, g0.log, s);
    }
    g := g0.(sessions := g0.sessions[s := info], log := log);
  }

  method SharedSelection(r: Ranking, n: nat) returns (names: set<TrackName>)
    ensures names == Top(r, n)
  {
    names := {};
    for i := 0 to |First(r, n)|
      invariant names == Names(r[..i])
    {
      NamesUpTo(r, i);
      names := names + {r[i].name};
    }
  }

  // How the ranking tells that a session was a publisher before.
  predicate WasPublisher(info: SessionInfo) {
    info.selected != {} || info.waterline.Some?
  }

  // What reconciling s does to a group: the others notice nothing.
  ghost predicate Reconciled(g0: Group, g: Group, s: Session) {
    && g.sessions.Keys == g0.sessions.Keys && g.states == g0.states && g.queue == g0.queue
    && (forall v :: v in g.sessions && v != s ==> g.sessions[v] == g0.sessions[v] && View(g.log, v) == View(g0.log, v))
    && (s in g.sessions && WasPublisher(g0.sessions[s]) ==> ToldDifference(g0, g, s))
    && SentTo(g0.log, g.log, {s})
  }

  // Session s is served; one that was a viewer so far is told the difference to the first n.
  ghost predicate Upgraded(r: Ranking, n: nat, g0: Group, g: Group, s: Session) {
    s in g0.sessions && s in g.sessions ==>
      && g.sessions[s].selected == Wanted(r, s, n)
      && (!WasPublisher(g0.sessions[s]) ==>
            View(g.log, s) == View(g0.log, s) - (Top(r, n) - Wanted(r, s, n)) + (Wanted(r, s, n) - Top(r, n)))
  }

  /** A viewer whose own track was registered becomes a publisher-subscriber. */
  method UpgradeInGroup(r: Ranking, n: nat, g0: Group, s: Session) returns (g: Group)
    requires Sorted(r) && Distinct(r)
    ensures Reconciled(g0, g, s) && Upgraded(r, n, g0, g, s)
  {
    g := g0;
    if s !in g.sessions {
      return;
    }
    var info := g.sessions[s];
    if info.selected == {} && info.waterline.None? {
      var names := SharedSelection(r, n);
      info := info.(selected := names);
    }
    var log;
    info, log := ReconcilePublisherSelection(r, n, s, info, g.log);
    g := g.(sessions := g.sessions[s := info], log := log);
  }

  ghost function SelectedIn(g: Group): set<TrackName> {
    set x | x in g.states && g.states[x] == Selected
  }

  // The queue names deselected tracks, each once.
  ghost predicate QueueOk(g: Group) {
    NoDup(g.queue) && forall x :: x in g.queue ==> x in g.states && g.states[x] == Deselected
  }

  // The selected tracks that are not quiet stay selected.
  ghost predicate BusyStay(g0: Group, g: Group, idle: TrackName -> bool) {
    forall x :: x in SelectedIn(g0) && !idle(x) ==> x in SelectedIn(g)
  }

  // Track x has given way to the best ranked track that was not selected.
  ghost predicate GaveWay(r: Ranking, g0: Group, g: Group, x: TrackName) {
    exists k: nat :: BestUnselected(r, g0, k) && SelectedIn(g) == SelectedIn(g0) - {x} + if k < |r| then {r[k].name} else {}
  }

  ghost predicate BestUnselected(r: Ranking, g: Group, k: nat) {
    && k <= |r| && (k < |r| ==> r[k].name !in SelectedIn(g))
    && forall j :: 0 <= j < k ==> r[j].name in SelectedIn(g)
  }

  ghost function IdleIn(g: Group, idle: TrackName -> bool): set<TrackName> {
    set x | x in SelectedIn(g) && idle(x)
  }

  // Of the idle selected tracks at least one is not selected any more, and a single one
  // has given way.
  ghost predicate Swept(r: Ranking, g0: Group, g: Group, idle: TrackName -> bool) {
    && (IdleIn(g0, idle) != {} ==> exists x :: x in IdleIn(g0, idle) && x !in SelectedIn(g))
    && (forall x :: IdleIn(g0, idle) == {x} ==> GaveWay(r, g0, g, x))
  }

  /** Replaces one selected track by the best ranked one that is not selected. */
  method SweepOne(r: Ranking, n: nat, publishers: set<Session>, g0: Group, x: TrackName, limit: nat)
    returns (g: Group, k: nat)
    requires Sorted(r) && Distinct(r)
    ensures g.sessions.Keys == g0.sessions.Keys && Continues(g0.log, g.log)
    ensures PublishersServed(r, n, g0, publishers) ==> PublishersServed(r, n, g, publishers)
    ensures QueueOk(g0) && x in SelectedIn(g0) ==>
      && QueueOk(g) && BestUnselected(r, g0, k)
      && SelectedIn(g) == SelectedIn(g0) - {x} + if k < |r| then {r[k].name} else {}
  {
    var demoted := DemoteTrack(g0, x, limit);
    g, k := PromoteNextAvailableTrack(r, n, publishers, demoted, x);
    ContinuesFurther(g0.log, demoted.log, g.log);
    if QueueOk(g0) && x in SelectedIn(g0) {
      DemotedIsQueued(g0, demoted, x, limit);
      if k < |r| {
        PromotedIsSelected(demoted, g, r[k].name);
      }
      assert forall y :: Free(demoted, y, x) <==> y !in SelectedIn(g0);
    }
  }

  lemma DemotedIsQueued(g0: Group, g: Group, x: TrackName, limit: nat)
    requires QueueOk(g0) && x in SelectedIn(g0)
    requires var queue := g0.queue + [x];
      g.queue == queue[Excess(queue, limit)..] && g.states == g0.states[x := Deselected] - Overflow(queue, limit)
    ensures QueueOk(g) && SelectedIn(g) == SelectedIn(g0) - {x}
  {
    var queue := g0.queue + [x];
    var k := Excess(queue, limit);
    AppendNoDup(g0.queue, x);
    SplitNoDup(queue, k);
  }

  lemma PromotedIsSelected(g0: Group, g: Group, x: TrackName)
    requires QueueOk(g0) && g.states == g0.states[x := Selected] && g.queue == Without(g0.queue, x)
    ensures QueueOk(g) && SelectedIn(g) == SelectedIn(g0) + {x}
  {
    WithoutElems(g0.queue, x);
    assert forall y :: y in g.queue ==> y in Elems(Without(g0.queue, x));
  }

  // The same while the tracks of todo are still to be looked at.
  ghost predicate SweptBut(r: Ranking, g0: Group, g: Group, idle: TrackName -> bool, todo: set<TrackName>) {
    if IdleIn(g0, idle) <= todo then g == g0
    else
      && (exists x :: x in IdleIn(g0, idle) && x !in SelectedIn(g))
      && (forall x :: IdleIn(g0, idle) == {x} ==> GaveWay(r, g0, g, x))
  }

  /**
   * Replaces, one after the other, the selected tracks that have gone quiet. The others
   * stay selected.
   */
  method SweepGroup(r: Ranking, n: nat, publishers: set<Session>, g0: Group, idle: TrackName -> bool, limit: nat)
    returns (g: Group)
    requires Sorted(r) && Distinct(r)
    ensures g.sessions.Keys == g0.sessions.Keys
    ensures PublishersServed(r, n, g0, publishers) ==> PublishersServed(r, n, g, publishers)
    ensures Continues(g0.log, g.log)
    ensures QueueOk(g0) ==> QueueOk(g) && BusyStay(g0, g, idle)
    ensures (forall x :: x in SelectedIn(g0) ==> !idle(x)) ==> g == g0
    ensures QueueOk(g0) ==> Swept(r, g0, g, idle)
  {
    g := g0;
    var todo := set x | x in g.states && g.states[x] == Selected;
    while todo != {}
      invariant g.sessions.Keys == g0.sessions.Keys && todo <= SelectedIn(g0)
      invariant PublishersServed(r, n, g0, publishers) ==> PublishersServed(r, n, g, publishers)
      invariant Continues(g0.log, g.log)
      invariant QueueOk(g0) ==>
        QueueOk(g) && todo <= SelectedIn(g) && BusyStay(g0, g, idle)
      invariant (forall x :: x in SelectedIn(g0) ==> !idle(x)) ==> g == g0
      invariant QueueOk(g0) ==> SweptBut(r, g0, g, idle, todo)
    {
      var x :| x in todo;
      todo := todo - {x};
      if idle(x) {
        ghost var log := g.log;
        var k;
        g, k := SweepOne(r, n, publishers, g, x, limit);
        ContinuesFurther(g0.log, log, g.log);
      }
    }
  }

  // ---- A publisher's own track pushes another out ---------------------------------------

  /**
   * When a publisher's own track enters the first n and pushes another publisher's
   * track out, that track stays among the publisher's first n tracks of others.
   */
  lemma PushedOutStaysWanted(before: Ranking, r: Ranking, n: nat, i: nat, j: nat)
    requires IsMove(before, r, i, j) && j < n <= i && r[n].publisher != r[j].publisher
    ensures r[n].name in PersonalTop(r, r[j].publisher, n)
  {
    var s := r[j].publisher;
    var p := r[..n];
    assert r == p + [r[n]] + r[n + 1..];
    NonSelfAppend(p + [r[n]], r[n + 1..], s);
    NonSelfAppend(p, [r[n]], s);
    assert [r[n]][1..] == [];
    NonSelfCount(p, s);
    OwnCountAppend(p[..j], p[j..], s);
    assert p == p[..j] + p[j..];
    var k := |NonSelf(p, s)|;
    assert NonSelf(r, s)[k] == r[n];
    NonSelfDistinct(r, s);
    InTop(NonSelf(r, s), k, n);
  }
}
