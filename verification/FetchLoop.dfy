/**
 * The fetch loop: serving a range from the cache, object by object, and asking
 * upstream for what is missing in between.
 */
module FetchLoop {
  import opened Common
  import opened Locations
  import opened IntervalSets
  import opened FetchRanges
  import opened CacheTracks
  import opened FetchIterators

  // What the consumer and the upstream see, in order.
  datatype Event =
    | Hit(at: Loc, fin: bool)
    | Upstream(span: Span, last: bool)
    | EndOfFetch
  {
    predicate Holds(x: Loc) {
      match this
      case Hit(at, _) => x == at
      case Upstream(span, _) => span.Holds(x)
      case EndOfFetch => false
    }

    // The loop waits for the answer and goes on from what it left.
    predicate Waits() {
      Upstream? && !last
    }

    predicate Final() {
      match this
      case Hit(_, fin) => fin
      case Upstream(_, last) => last
      case EndOfFetch => true
    }
  }

  // The cache at some time.
  datatype Moment = Moment(track: Track, now: nat)

  // How an upstream fetch ended: the state the writes behind it left, or a failure.
  datatype Reply = Done(moment: Moment) | Failed

  // ---- Looking an object up -----------------------------------------------------

  // x can be served: complete and not too old.
  predicate Fresh(m: Moment, x: Loc, defaultAge: Option<nat>) {
    HasComplete(m.track, x) && !Expired(m.track, x, m.now, defaultAge)
  }

  // The two tracks agree on what the iterator reads of groups and of the end.
  ghost predicate SameShape(a: Track, b: Track) {
    && b.gaps == a.gaps && b.endOfTrack == a.endOfTrack && b.largest == a.largest
    && b.groups.Keys == a.groups.Keys
    && forall g :: g in a.groups ==>
         b.groups[g].ended == a.groups[g].ended && b.groups[g].maxCached == a.groups[g].maxCached
  }

  // Indexed, though neither a gap nor an object that can be served or will be dropped.
  predicate Stale(m: Moment, x: Loc, defaultAge: Option<nat>) {
    && Contains(m.track.cached, x) && !Contains(m.track.gaps, x) && !HasComplete(m.track, x)
    && !(HasObject(m.track, x) && Expired(m.track, x, m.now, defaultAge))
  }

  // The lookup as the fetch loop uses it.
  method Find(t0: Track, x: Loc, now: nat, defaultAge: Option<nat>) returns (t: Track, hit: bool)
    requires TrackOk(t0)
    ensures TrackOk(t) && SameShape(t0, t)
    ensures hit <==> Fresh(Moment(t0, now), x, defaultAge)
    ensures forall y: Loc :: Stale(Moment(t, now), y, defaultAge) ==> Stale(Moment(t0, now), y, defaultAge)
    ensures forall y: Loc :: Fresh(Moment(t, now), y, defaultAge) <==> Fresh(Moment(t0, now), y, defaultAge)
    ensures forall y: Loc :: y != x ==> Contains(t.cached, y) == Contains(t0.cached, y)
    ensures !hit && !Contains(t0.gaps, x) ==> (Contains(t.cached, x) <==> Stale(Moment(t0, now), x, defaultAge))
    ensures Stale(Moment(t0, now), x, defaultAge) ==> t == t0
  {
    t, hit := GetCachedObjectMaybe(t0, x, now, defaultAge);
    if HasObject(t0, x) && Expired(t0, x, now, defaultAge) {
      ExpiredIsNotFresh(t0, x, now, defaultAge);
      ExpiredIsNotStale(t0, x, now, defaultAge);
    }
  }

  // Dropping an expired object changes nothing that could be served.
  lemma ExpiredIsNotFresh(t: Track, x: Loc, now: nat, defaultAge: Option<nat>)
    requires TrackOk(t) && HasObject(t, x) && Expired(t, x, now, defaultAge)
    ensures SameShape(t, Expire(t, x))
    ensures forall y: Loc :: Fresh(Moment(Expire(t, x), now), y, defaultAge) <==> Fresh(Moment(t, now), y, defaultAge)
  {
  }

  lemma ExpiredIsNotStale(t: Track, x: Loc, now: nat, defaultAge: Option<nat>)
    requires TrackOk(t) && HasObject(t, x)
    ensures forall y: Loc :: Stale(Moment(Expire(t, x), now), y, defaultAge) ==> Stale(Moment(t, now), y, defaultAge)
  {
  }

  // ---- What the upstream does ------------------------------------------------------

  ghost predicate GapsGrow(a: Track, b: Track) {
    forall x: Loc :: Contains(a.gaps, x) ==> Contains(b.gaps, x)
  }

  // One fetch: its range, the cache when it starts, and what the upstream will do.
  datatype Request = Request(start: Loc, past: Loc, first: Moment, defaultAge: Option<nat>, upstream: nat -> Reply)

  // The loop can make its way through the range: the track is well-formed and no
  // location of the range is stale.
  ghost predicate Passable(q: Request, m: Moment) {
    && TrackOk(m.track) && (m.track.endOfTrack ==> m.track.largest.Some?)
    && forall x: Loc :: InRange(q.start, q.past, x) ==> !Stale(m, x, q.defaultAge)
  }

  // Upstream fetches leave a passable cache behind and never retract a gap.
  ghost predicate RepliesOk(q: Request) {
    && (forall k :: q.upstream(k).Done? ==>
          Passable(q, q.upstream(k).moment) && GapsGrow(q.first.track, q.upstream(k).moment.track))
    && (forall j, k :: j < k && q.upstream(j).Done? && q.upstream(k).Done? ==>
          GapsGrow(q.upstream(j).moment.track, q.upstream(k).moment.track))
  }

  ghost predicate RequestOk(q: Request) {
    q.start.AtMost(q.past) && Passable(q, q.first) && RepliesOk(q)
  }

  // The cache as the first n upstream fetches left it.
  ghost function MomentAfter(q: Request, n: nat): Moment {
    if n == 0 || q.upstream(n - 1).Failed? then q.first else q.upstream(n - 1).moment
  }

  ghost function TrackAfter(q: Request, n: nat): Track {
    MomentAfter(q, n).track
  }

  // How many upstream fetches were waited for before event i.
  ghost function Replies(events: seq<Event>, i: nat): nat
    requires i <= |events|
  {
    if i == 0 then 0 else Replies(events, i - 1) + if events[i - 1].Waits() then 1 else 0
  }

  lemma {:induction false} RepliesAppend(events: seq<Event>, e: Event, i: nat)
    requires i <= |events|
    ensures Replies(events + [e], i) == Replies(events, i)
    decreases i
  {
    if i > 0 {
      RepliesAppend(events, e, i - 1);
    }
  }

  // Every upstream fetch asked for succeeded.
  ghost predicate Answered(q: Request, events: seq<Event>) {
    forall i :: 0 <= i < |events| && events[i].Upstream? ==> q.upstream(Replies(events, i)).Done?
  }

  // ---- What the events say ------------------------------------------------------------

  ghost predicate Held(events: seq<Event>, x: Loc) {
    exists i :: 0 <= i < |events| && events[i].Holds(x)
  }

  // Events concern locations of [lo, hi) only, and later events later locations.
  ghost predicate Increasing(events: seq<Event>, lo: Loc, hi: Loc) {
    && (forall i, x: Loc :: 0 <= i < |events| && events[i].Holds(x) ==> InRange(lo, hi, x))
    && (forall i, j, x: Loc, y: Loc ::
          0 <= i < j < |events| && events[i].Holds(x) && events[j].Holds(y) ==> x.Less(y))
  }

  /**
   * How many fetches had been waited for when the hit at event i was looked up: a
   * request right in front of the hit was made after the lookup.
   */
  ghost function Decided(events: seq<Event>, i: nat): nat
    requires i < |events| && events[i].Hit?
  {
    if i > 0 && events[i - 1].Upstream? && events[i - 1].span.past == events[i].at then Replies(events, i - 1)
    else Replies(events, i)
  }

  predicate PastEnd(t: Track, x: Loc) {
    t.endOfTrack && t.largest.Some? && t.largest.value.Less(x)
  }

  // x may be asked for: it cannot be served, and if it is a known gap then it is one
  // the index has lost; or it lies past the end of the track behind a missing tail.
  ghost predicate Missed(m: Moment, x: Loc, last: bool, defaultAge: Option<nat>) {
    || (last && PastEnd(m.track, x))
    || (if Contains(m.track.gaps, x) then !Contains(m.track.cached, x) else !Fresh(m, x, defaultAge))
  }

  // x can be served: before the end of the track, complete and not too old.
  ghost predicate Servable(m: Moment, x: Loc, defaultAge: Option<nat>) {
    Fresh(m, x, defaultAge) && !PastEnd(m.track, x)
  }

  ghost predicate HonestAt(q: Request, events: seq<Event>, i: nat)
    requires i < |events|
  {
    match events[i]
    case Hit(at, _) => Servable(MomentAfter(q, Decided(events, i)), at, q.defaultAge)
    case Upstream(span, last) =>
      forall x: Loc :: span.Holds(x) ==> Missed(MomentAfter(q, Replies(events, i)), x, last, q.defaultAge)
    case EndOfFetch => true
  }

  // Hits were complete and fresh when looked up; only what was missing was asked for.
  ghost predicate Honest(q: Request, events: seq<Event>) {
    forall i :: 0 <= i < |events| ==> HonestAt(q, events, i)
  }

  // The group of a hit was forgotten during the request in front of it.
  ghost predicate Slips(q: Request, events: seq<Event>, i: nat)
    requires i < |events|
  {
    events[i].Hit? && !StepExact(TrackAfter(q, Replies(events, i)), events[i].at, q.past)
  }

  // x lies in such a group behind the hit.
  ghost predicate Lost(q: Request, events: seq<Event>, x: Loc) {
    exists i :: 0 <= i < |events| && Slips(q, events, i) && events[i].at.Less(x) && x.group == events[i].at.group
  }

  // Every location of [lo, hi) is a known gap, served, requested or lost.
  ghost predicate Covered(q: Request, events: seq<Event>, gaps: Intervals, lo: Loc, hi: Loc) {
    forall x: Loc :: InRange(lo, hi, x) ==> Contains(gaps, x) || Held(events, x) || Lost(q, events, x)
  }

  // Every location of the range is a known gap, past the end of the track, served,
  // requested or lost.
  ghost predicate Accounted(q: Request, events: seq<Event>, t: Track) {
    forall x: Loc :: InRange(q.start, q.past, x) ==>
      Contains(t.gaps, x) || PastEnd(t, x) || Held(events, x) || Lost(q, events, x)
  }

  // A hit whose group was forgotten is followed by later groups only.
  ghost predicate SlipsAhead(q: Request, events: seq<Event>, hi: Loc) {
    forall i :: 0 <= i < |events| && Slips(q, events, i) ==>
      && events[i].at.group < hi.group
      && forall j, y: Loc :: i < j < |events| && events[j].Holds(y) ==> events[i].at.group < y.group
  }

  lemma LostIsNotHeld(q: Request, events: seq<Event>, lo: Loc, hi: Loc, x: Loc)
    requires Increasing(events, lo, hi) && SlipsAhead(q, events, hi) && Lost(q, events, x)
    ensures !Held(events, x)
  {
    var i :| 0 <= i < |events| && Slips(q, events, i) && events[i].at.Less(x) && x.group == events[i].at.group;
    var at := events[i].at;
    assert events[i].Holds(at);
    forall j | 0 <= j < |events| ensures !events[j].Holds(x) {
      if j <= i {
        LostIsNotAt(events, lo, hi, i, j, x);
      }
      assert i < j && events[j].Holds(x) ==> at.group < x.group;
    }
  }

  lemma LostIsNotAt(events: seq<Event>, lo: Loc, hi: Loc, i: nat, j: nat, x: Loc)
    requires Increasing(events, lo, hi) && i < |events| && j <= i && events[i].Hit? && events[i].at.Less(x)
    ensures !events[j].Holds(x)
  {
    var at := events[i].at;
    assert events[i].Holds(at);
    assert j < i && events[j].Holds(x) ==> x.Less(at);
  }

  /**
   * The account of a fetch so far: what was sent and asked for, on the strength of
   * which state of the cache, and that it leaves nothing of [lo, hi) out.
   */
  ghost predicate Account(q: Request, events: seq<Event>, gaps: Intervals, hi: Loc) {
    && Increasing(events, q.start, hi)
    && Honest(q, events)
    && Covered(q, events, gaps, q.start, hi)
    && SlipsAhead(q, events, hi)
    && Answered(q, events)
  }

  // ---- Adding an event ------------------------------------------------------------------

  lemma AppendIncreasing(events: seq<Event>, e: Event, lo: Loc, mid: Loc, hi: Loc)
    requires Increasing(events, lo, mid)
    requires lo.AtMost(mid) && mid.AtMost(hi)
    requires forall x: Loc :: e.Holds(x) ==> InRange(mid, hi, x)
    ensures Increasing(events + [e], lo, hi)
  {
    var after := events + [e];
    forall i, x: Loc | 0 <= i < |after| && after[i].Holds(x) ensures InRange(lo, hi, x) {
      if i < |events| {
        assert events[i].Holds(x);
        assert InRange(lo, mid, x);
      } else {
        assert e.Holds(x);
        assert InRange(mid, hi, x);
      }
    }
    forall i, j, x: Loc, y: Loc | 0 <= i < j < |after| && after[i].Holds(x) && after[j].Holds(y) ensures x.Less(y) {
      assert events[i].Holds(x) && InRange(lo, mid, x);
      assert if j < |events| then events[j].Holds(y) else InRange(mid, hi, y);
    }
  }

  // What was said of event i stays true when another event follows.
  lemma AppendKeeps(q: Request, events: seq<Event>, e: Event, i: nat)
    requires i < |events|
    ensures HonestAt(q, events + [e], i) <==> HonestAt(q, events, i)
    ensures Slips(q, events + [e], i) <==> Slips(q, events, i)
    ensures Replies(events + [e], i) == Replies(events, i)
  {
    RepliesAppend(events, e, i);
    if i > 0 {
      RepliesAppend(events, e, i - 1);
    }
  }

  lemma AppendHonest(q: Request, events: seq<Event>, e: Event)
    requires Honest(q, events) && HonestAt(q, events + [e], |events|)
    ensures Honest(q, events + [e])
  {
    forall i | 0 <= i < |events + [e]| ensures HonestAt(q, events + [e], i) {
      if i < |events| {
        AppendKeeps(q, events, e, i);
      }
    }
  }

  lemma AppendAnswered(q: Request, events: seq<Event>, e: Event)
    requires Answered(q, events)
    ensures Answered(q, events + [e]) <==> (e.Upstream? ==> q.upstream(Replies(events, |events|)).Done?)
  {
    var after := events + [e];
    assert after[|events|] == e;
    RepliesAppend(events, e, |events|);
    forall i | 0 <= i < |events| && after[i].Upstream? ensures q.upstream(Replies(after, i)).Done? {
      RepliesAppend(events, e, i);
      assert events[i].Upstream?;
    }
  }

  lemma AppendCovered(q: Request, events: seq<Event>, e: Event, gaps: Intervals, lo: Loc, mid: Loc, hi: Loc)
    requires Covered(q, events, gaps, lo, mid)
    requires forall x: Loc :: InRange(mid, hi, x) ==> e.Holds(x) || Contains(gaps, x) || Lost(q, events + [e], x)
    ensures Covered(q, events + [e], gaps, lo, hi)
  {
    var after := events + [e];
    forall x: Loc | InRange(lo, hi, x) && !Contains(gaps, x) ensures Held(after, x) || Lost(q, after, x) {
      if InRange(lo, mid, x) {
        if Held(events, x) {
          var i :| 0 <= i < |events| && events[i].Holds(x);
          assert after[i].Holds(x);
        } else {
          AppendLost(q, events, e, x);
        }
      } else if e.Holds(x) {
        assert after[|events|].Holds(x);
      }
    }
  }

  lemma AppendLost(q: Request, events: seq<Event>, e: Event, x: Loc)
    requires Lost(q, events, x)
    ensures Lost(q, events + [e], x)
  {
    var i :| 0 <= i < |events| && Slips(q, events, i) && events[i].at.Less(x) && x.group == events[i].at.group;
    AppendKeeps(q, events, e, i);
    assert (events + [e])[i] == events[i];
  }

  lemma AppendSlips(q: Request, events: seq<Event>, e: Event, mid: Loc, hi: Loc)
    requires SlipsAhead(q, events, mid) && mid.AtMost(hi)
    requires forall x: Loc :: e.Holds(x) ==> mid.AtMost(x)
    requires Slips(q, events + [e], |events|) ==> e.at.group < hi.group
    ensures SlipsAhead(q, events + [e], hi)
  {
    var after := events + [e];
    forall i | 0 <= i < |after| && Slips(q, after, i)
      ensures after[i].at.group < hi.group
      ensures forall j, y: Loc :: i < j < |after| && after[j].Holds(y) ==> after[i].at.group < y.group
    {
      if i < |events| {
        AppendKeeps(q, events, e, i);
        assert after[i] == events[i];
        forall j, y: Loc | i < j < |after| && after[j].Holds(y) ensures after[i].at.group < y.group {
          if j < |events| {
            assert events[j].Holds(y);
          }
        }
      }
    }
  }

  lemma AccountUpstream(q: Request, events: seq<Event>, n: nat, miss: Loc, hit: Loc, last: bool)
    requires Account(q, events, TrackAfter(q, n).gaps, miss) && n == Replies(events, |events|)
    requires q.start.AtMost(miss) && miss.AtMost(hit)
    requires forall x: Loc :: InRange(miss, hit, x) ==> Missed(MomentAfter(q, n), x, last, q.defaultAge)
    ensures var after := events + [Upstream(Span(miss, hit), last)];
      && Increasing(after, q.start, hit) && Honest(q, after) && SlipsAhead(q, after, hit)
      && Covered(q, after, TrackAfter(q, n).gaps, q.start, hit)
      && (Answered(q, after) <==> q.upstream(n).Done?)
      && Replies(after, |events|) == n && Replies(after, |after|) == if last then n else n + 1
  {
    var e := Upstream(Span(miss, hit), last);
    RepliesAppend(events, e, |events|);
    AppendIncreasing(events, e, q.start, miss, hit);
    AppendHonest(q, events, e);
    AppendAnswered(q, events, e);
    AppendCovered(q, events, e, TrackAfter(q, n).gaps, q.start, miss, hit);
    AppendSlips(q, events, e, miss, hit);
  }

  lemma AccountHit(q: Request, events: seq<Event>, n: nat, hit: Loc, next: Loc, fin: bool)
    requires Account(q, events, TrackAfter(q, n).gaps, hit) && n == Replies(events, |events|)
    requires q.start.AtMost(hit) && hit.Less(next)
    requires Servable(MomentAfter(q, Decided(events + [Hit(hit, fin)], |events|)), hit, q.defaultAge)
    requires forall x: Loc :: hit.Less(x) && x.Less(next) ==>
      Contains(TrackAfter(q, n).gaps, x) || (x.group == hit.group && !StepExact(TrackAfter(q, n), hit, q.past))
    requires !StepExact(TrackAfter(q, n), hit, q.past) ==> hit.group < next.group
    ensures var after := events + [Hit(hit, fin)];
      Account(q, after, TrackAfter(q, n).gaps, next) && Replies(after, |after|) == n
  {
    var e := Hit(hit, fin);
    var after := events + [e];
    RepliesAppend(events, e, |events|);
    AppendIncreasing(events, e, q.start, hit, next);
    AppendHonest(q, events, e);
    AppendAnswered(q, events, e);
    forall x: Loc | InRange(hit, next, x) && x != hit && !Contains(TrackAfter(q, n).gaps, x) ensures Lost(q, after, x) {
      assert Slips(q, after, |events|);
    }
    AppendCovered(q, events, e, TrackAfter(q, n).gaps, q.start, hit, next);
    AppendSlips(q, events, e, hit, next);
  }

  lemma AccountEnd(q: Request, events: seq<Event>, gaps: Intervals, hi: Loc)
    requires Account(q, events, gaps, hi) && q.start.AtMost(hi)
    ensures Account(q, events + [EndOfFetch], gaps, hi)
    ensures Replies(events + [EndOfFetch], |events| + 1) == Replies(events, |events|)
  {
    RepliesAppend(events, EndOfFetch, |events|);
    AppendIncreasing(events, EndOfFetch, q.start, hi, hi);
    AppendHonest(q, events, EndOfFetch);
    AppendAnswered(q, events, EndOfFetch);
    AppendCovered(q, events, EndOfFetch, gaps, q.start, hi, hi);
    AppendSlips(q, events, EndOfFetch, hi, hi);
  }

  lemma AccountGaps(q: Request, events: seq<Event>, gaps: Intervals, more: Intervals, hi: Loc, to: Loc)
    requires Increasing(events, q.start, hi) && Honest(q, events) && SlipsAhead(q, events, hi) && Answered(q, events)
    requires Covered(q, events, gaps, q.start, hi) && hi.AtMost(to)
    requires forall x: Loc :: Contains(gaps, x) || InRange(hi, to, x) ==> Contains(more, x)
    ensures Account(q, events, more, to)
  {
    forall i, x: Loc | 0 <= i < |events| && events[i].Holds(x) ensures InRange(q.start, to, x) {
      assert InRange(q.start, hi, x);
    }
  }

  // ---- The loop ---------------------------------------------------------------------

  // The loop's own variables.
  datatype Run = Run(now: nat, replies: nat, miss: Option<Loc>, events: seq<Event>, served: bool, lastObject: bool)

  /**
   * The track is the one the last upstream fetch left, short of expired objects at
   * positions the loop has looked at.
   */
  ghost predicate Synced(q: Request, t: Track, r: Run, current: Loc) {
    match MomentAfter(q, r.replies)
    case Moment(track, now) =>
      && (r.replies == 0 || q.upstream(r.replies - 1).Done?)
      && r.now == now && SameShape(track, t)
      && (forall x: Loc :: Fresh(Moment(t, now), x, q.defaultAge) <==> Fresh(Moment(track, now), x, q.defaultAge))
      && (forall x: Loc :: current.Less(x) ==> Contains(t.cached, x) == Contains(track.cached, x))
  }

  lemma SyncedOn(q: Request, t: Track, r: Run, r': Run, current: Loc, next: Loc)
    requires Synced(q, t, r, current) && r'.now == r.now && r'.replies == r.replies && current.AtMost(next)
    ensures Synced(q, t, r', next)
  {
  }

  lemma SyncedReply(q: Request, r: Run, r': Run, current: Loc)
    requires q.upstream(r.replies).Done?
    requires r'.replies == r.replies + 1 && r'.now == q.upstream(r.replies).moment.now
    ensures Synced(q, q.upstream(r.replies).moment.track, r', current)
  {
  }

  lemma SyncedStep(q: Request, t: Track, r: Run, current: Loc, x: Loc)
    requires Synced(q, t, r, current)
    ensures StepExact(t, x, q.past) == StepExact(TrackAfter(q, r.replies), x, q.past)
    ensures Fresh(Moment(t, r.now), x, q.defaultAge) == Fresh(MomentAfter(q, r.replies), x, q.defaultAge)
    ensures t.gaps == TrackAfter(q, r.replies).gaps && PastEnd(t, x) == PastEnd(TrackAfter(q, r.replies), x)
  {
  }

  // Nothing in [miss, current) could be served from the cache.
  ghost predicate Missing(q: Request, n: nat, miss: Loc, current: Loc) {
    miss.Less(current) && forall x: Loc :: InRange(miss, current, x) ==> Missed(MomentAfter(q, n), x, false, q.defaultAge)
  }

  // Exactly the last event tells the consumer that the fetch is over.
  ghost predicate EndsOnce(events: seq<Event>) {
    && |events| > 0
    && events[|events| - 1].Final()
    && forall i :: 0 <= i < |events| - 1 ==> !events[i].Final()
  }

  ghost predicate NotEnded(events: seq<Event>) {
    forall i :: 0 <= i < |events| ==> !events[i].Final()
  }

  // The iterator walks the range of the request.
  ghost predicate Positioned(q: Request, it: FetchRangeIterator)
    reads it
  {
    && it.Ok() && it.valid && it.min == q.start && it.max == q.past && it.order == OldestFirst
    && q.start.AtMost(it.current)
  }

  // What was sent and asked for accounts for everything before the current position,
  // or before the stretch that is missing in front of it.
  ghost predicate Booked(q: Request, r: Run, current: Loc) {
    match r.miss
    case None =>
      && r.replies == Replies(r.events, |r.events|)
      && Account(q, r.events, TrackAfter(q, r.replies).gaps, current)
    case Some(miss) =>
      && r.replies == Replies(r.events, |r.events|)
      && Account(q, r.events, TrackAfter(q, r.replies).gaps, miss)
      && q.start.AtMost(miss) && Missing(q, r.replies, miss, current)
  }

  lemma ExtendMissing(q: Request, t: Track, r: Run, current: Loc, next: Loc)
    requires TrackOk(TrackAfter(q, r.replies)) && Synced(q, t, r, current) && current.Less(next)
    requires Booked(q, r, current) && q.start.AtMost(current)
    requires !Contains(t.gaps, current) && !Fresh(Moment(t, r.now), current, q.defaultAge)
    requires forall x: Loc :: InRange(current, next, x) ==> !Contains(t.cached, x)
    ensures Booked(q, if r.miss.Some? then r else r.(miss := Some(current)), next)
  {
    var from := if r.miss.Some? then r.miss.value else current;
    var m := MomentAfter(q, r.replies);
    forall x: Loc | InRange(from, next, x) ensures Missed(m, x, false, q.defaultAge) {
      if x != current && !(r.miss.Some? && InRange(r.miss.value, current, x)) {
        assert InRange(current, next, x) && !Contains(m.track.cached, x);
      }
    }
  }

  // The track and the events belong to the same point of the fetch.
  ghost predicate InStep(q: Request, t: Track, current: Loc, r: Run) {
    Passable(q, Moment(t, r.now)) && Synced(q, t, r, current) && Booked(q, r, current)
  }

  ghost predicate Inv(q: Request, it: FetchRangeIterator, r: Run)
    reads it
  {
    RequestOk(q) && Positioned(q, it) && InStep(q, it.track, it.current, r)
  }

  /**
   * The three places of the loop: before a turn, between a turn and the loop
   * condition, and behind the loop, which stops at the end of the range or past the
   * end of the track. A final event has been sent only at the very end.
   */
  datatype Place = Ongoing | Looping | Finished

  ghost predicate At(q: Request, it: FetchRangeIterator, r: Run, place: Place)
    reads it
  {
    match place
    case Ongoing =>
      Inv(q, it, r) && it.end == q.past && it.current != it.end && NotEnded(r.events) && !r.lastObject
    case Looping =>
      && Inv(q, it, r) && (it.end == q.past || (it.end == it.current && PastEnd(it.track, it.current)))
      && (if r.lastObject then r.served && r.miss.None? && it.current == it.end && EndsOnce(r.events)
          else NotEnded(r.events))
    case Finished =>
      && Inv(q, it, r)
      && (it.current == q.past || PastEnd(it.track, it.current))
      && (if r.lastObject then r.served && r.miss.None? && EndsOnce(r.events) else NotEnded(r.events))
  }

  // The loop condition.
  method AtEnd(q: Request, it: FetchRangeIterator, r: Run) returns (done: bool)
    requires At(q, it, r, Looping)
    modifies it`end
    ensures if done then At(q, it, r, Finished) else At(q, it, r, Ongoing) && !PastEnd(it.track, it.current)
    ensures done <==> it.current == q.past || PastEnd(it.track, it.current)
  {
    var end := it.End();
    done := it.current == end;
  }

  // What is left when the loop stops: the missing tail, or telling the consumer.
  method Finish(q: Request, it: FetchRangeIterator, r: Run) returns (events: seq<Event>, ok: bool)
    requires At(q, it, r, Finished)
    ensures Complete(q, events, ok)
    ensures r.lastObject ==> ok && events == r.events
  {
    SyncedStep(q, it.track, r, it.current, it.current);
    if r.miss.Some? {
      var span := GetFetchIntervals(q.start, q.past, r.miss.value, it.current, OldestFirst, true)[0];
      TailBooked(q, it.track, r, it.current);
      events := r.events + [Upstream(span, true)];
      ok := q.upstream(r.replies).Done?;
    } else {
      EndBooked(q, it.track, r, it.current);
      events, ok := r.events, true;
      if !(r.lastObject && r.served) {
        events := events + [EndOfFetch];
      }
    }
  }

  lemma TailBooked(q: Request, t: Track, r: Run, current: Loc)
    requires Synced(q, t, r, current) && Booked(q, r, current) && r.miss.Some? && current.AtMost(q.past)
    requires NotEnded(r.events)
    requires current == q.past || PastEnd(t, current)
    ensures var events := r.events + [Upstream(Span(r.miss.value, q.past), true)];
      Complete(q, events, q.upstream(r.replies).Done?)
  {
    TailMissed(q, t, r, r.miss.value, current);
    AccountUpstream(q, r.events, r.replies, r.miss.value, q.past, true);
  }

  lemma EndBooked(q: Request, t: Track, r: Run, current: Loc)
    requires Synced(q, t, r, current) && Booked(q, r, current) && r.miss.None? && current.AtMost(q.past)
    requires q.start.AtMost(current) && (current == q.past || PastEnd(t, current))
    ensures EndsOnce(r.events) ==> Complete(q, r.events, true)
    ensures NotEnded(r.events) ==> Complete(q, r.events + [EndOfFetch], true)
  {
    EventsBooked(q, r.events, t, r.replies, current);
    AccountEnd(q, r.events, t.gaps, current);
    EventsBooked(q, r.events + [EndOfFetch], t, r.replies, current);
  }

  lemma EventsBooked(q: Request, events: seq<Event>, t: Track, n: nat, current: Loc)
    requires Account(q, events, t.gaps, current) && current.AtMost(q.past) && (current == q.past || PastEnd(t, current))
    requires Replies(events, |events|) == n && SameShape(TrackAfter(q, n), t)
    ensures EndsOnce(events) ==> Complete(q, events, true)
  {
    IncreasingUpTo(q, events, current);
    AccountedUpTo(q, events, t, current);
  }

  // What lies past the end of the track needs no account.
  lemma AccountedUpTo(q: Request, events: seq<Event>, t: Track, current: Loc)
    requires Covered(q, events, t.gaps, q.start, current) && (current == q.past || PastEnd(t, current))
    ensures Accounted(q, events, t)
  {
    forall x: Loc | InRange(q.start, q.past, x) && !PastEnd(t, x)
      ensures Contains(t.gaps, x) || Held(events, x) || Lost(q, events, x)
    {
      assert InRange(q.start, current, x);
    }
  }

  lemma TailMissed(q: Request, t: Track, r: Run, miss: Loc, current: Loc)
    requires Synced(q, t, r, current) && Missing(q, r.replies, miss, current)
    requires current == q.past || PastEnd(t, current)
    ensures forall x: Loc :: InRange(miss, q.past, x) ==> Missed(MomentAfter(q, r.replies), x, true, q.defaultAge)
  {
    var m := MomentAfter(q, r.replies);
    forall x: Loc | InRange(miss, q.past, x) ensures Missed(m, x, true, q.defaultAge) {
      if InRange(miss, current, x) {
        assert Missed(m, x, false, q.defaultAge);
      } else {
        assert current.AtMost(x) && PastEnd(t, x);
      }
    }
  }

  // The upstream fetch asked for last failed, and no other.
  ghost predicate LastFailed(q: Request, events: seq<Event>) {
    && |events| > 0 && events[|events| - 1].Upstream?
    && q.upstream(Replies(events, |events| - 1)).Failed?
  }

  // What holds of the events of a fetch that has ended.
  ghost predicate Complete(q: Request, events: seq<Event>, ok: bool) {
    match ok
    case true =>
      && Increasing(events, q.start, q.past) && Honest(q, events) && SlipsAhead(q, events, q.past)
      && Accounted(q, events, TrackAfter(q, Replies(events, |events|)))
      && Answered(q, events) && EndsOnce(events)
    case false =>
      && Increasing(events, q.start, q.past) && Honest(q, events) && SlipsAhead(q, events, q.past)
      && LastFailed(q, events)
  }

  /**
   * The lookup that starts a turn and the jump a miss makes. A miss stays where it
   * is exactly when its location is indexed all the same; then nothing changes, so
   * the next turn is the same again.
   */
  method Look(it: FetchRangeIterator, now: nat, defaultAge: Option<nat>) returns (hit: bool, missed: bool)
    requires it.Ok() && it.valid && it.order == OldestFirst && TrackOk(it.track)
    requires it.end == it.max && it.current != it.end
    modifies it`track, it`current, it`valid
    ensures it.Ok() && it.valid && TrackOk(it.track) && SameShape(old(it.track), it.track)
    ensures forall y: Loc :: Stale(Moment(it.track, now), y, defaultAge) ==> Stale(Moment(old(it.track), now), y, defaultAge)
    ensures hit <==> Fresh(Moment(old(it.track), now), old(it.current), defaultAge)
    ensures missed <==> !hit && !Contains(it.track.gaps, old(it.current))
    ensures forall y: Loc :: Fresh(Moment(it.track, now), y, defaultAge) <==> Fresh(Moment(old(it.track), now), y, defaultAge)
    ensures forall y: Loc :: y != old(it.current) ==> Contains(it.track.cached, y) == Contains(old(it.track.cached), y)
    ensures old(it.current).AtMost(it.current) && (!missed ==> it.current == old(it.current))
    ensures missed ==> it.current == NextBoundary(it.track.cached, old(it.current), it.max)
    ensures missed ==> (it.current == old(it.current) <==> Stale(Moment(old(it.track), now), old(it.current), defaultAge))
    ensures Stale(Moment(old(it.track), now), old(it.current), defaultAge) ==> missed && it.track == old(it.track)
  {
    var t, found := Find(it.track, it.current, now, defaultAge);
    it.track, hit := t, found;
    missed := !hit && !Contains(it.track.gaps, it.current);
    if missed {
      it.SkipUncached();
    }
  }

  lemma LookKeepsSync(q: Request, t0: Track, t: Track, r: Run, x: Loc, next: Loc)
    requires Synced(q, t0, r, x) && SameShape(t0, t) && x.AtMost(next)
    requires forall y: Loc :: Fresh(Moment(t, r.now), y, q.defaultAge) <==> Fresh(Moment(t0, r.now), y, q.defaultAge)
    requires forall y: Loc :: y != x ==> Contains(t.cached, y) == Contains(t0.cached, y)
    ensures Synced(q, t, r, next)
  {
  }

  // A turn that misses: remember where the stretch began.
  method Lookup(q: Request, it: FetchRangeIterator, r: Run) returns (r': Run, hit: bool, missed: bool)
    requires At(q, it, r, Ongoing)
    modifies it`track, it`current, it`valid
    ensures hit <==> Fresh(MomentAfter(q, r.replies), old(it.current), q.defaultAge)
    ensures PastEnd(TrackAfter(q, r.replies), old(it.current)) == old(PastEnd(it.track, it.current))
    ensures missed ==> At(q, it, r', Looping) && old(it.current).Less(it.current) && r'.events == r.events
    ensures !missed ==> At(q, it, r, Ongoing) && r' == r && it.current == old(it.current)
    ensures (hit ==> !missed) && (!missed && !hit ==> Contains(it.track.gaps, it.current))
  {
    r', hit, missed := LookAndJump(q, it, r);
  }

  // The same, and where the jump goes.
  method LookAndJump(q: Request, it: FetchRangeIterator, r: Run) returns (r': Run, hit: bool, missed: bool)
    requires At(q, it, r, Ongoing)
    modifies it`track, it`current, it`valid
    ensures hit <==> Fresh(MomentAfter(q, r.replies), old(it.current), q.defaultAge)
    ensures PastEnd(TrackAfter(q, r.replies), old(it.current)) == old(PastEnd(it.track, it.current))
    ensures missed <==> !hit && !Contains(it.track.gaps, old(it.current))
    ensures missed ==> At(q, it, r', Looping) && old(it.current).Less(it.current)
    ensures missed ==> r' == if r.miss.Some? then r else r.(miss := Some(old(it.current)))
    ensures missed ==> it.current == NextBoundary(it.track.cached, old(it.current), q.past)
    ensures !missed ==> At(q, it, r, Ongoing) && r' == r && it.current == old(it.current)
    ensures forall y: Loc :: y != old(it.current) ==> Contains(it.track.cached, y) == Contains(old(it.track.cached), y)
  {
    ghost var t0 := it.track;
    var x := it.current;
    SyncedStep(q, t0, r, x, x);
    hit, missed := Look(it, r.now, q.defaultAge);
    LookKeepsSync(q, t0, it.track, r, x, x);
    r' := r;
    if missed {
      ExtendMissing(q, it.track, r, x, it.current);
      r' := if r.miss.Some? then r else r.(miss := Some(x));
      SyncedOn(q, it.track, r, r', x, it.current);
    }
  }

  // A boundary: ask upstream for what was missed before it.
  method Flush(q: Request, it: FetchRangeIterator, r: Run) returns (r': Run, failed: bool)
    requires At(q, it, r, Ongoing) && r.miss.Some?
    modifies it`track
    ensures r'.events == r.events + [Upstream(Span(r.miss.value, it.current), false)] && r'.miss.None?
    ensures failed ==> Complete(q, r'.events, false)
    ensures !failed ==> At(q, it, r', Ongoing)
    ensures if q.upstream(r.replies).Failed? then failed else !failed && it.track == TrackAfter(q, r.replies + 1)
    ensures !failed && Contains(old(it.track.gaps), it.current) ==> Contains(it.track.gaps, it.current)
  {
    var t;
    t, r', failed := AskUpstream(q, it.track, r, it.current);
    if !failed {
      Install(q, it, t, r');
    }
  }

  lemma NotEndedAppend(events: seq<Event>, e: Event)
    requires NotEnded(events) && !e.Final()
    ensures NotEnded(events + [e])
  {
  }

  // The loop goes on with the track as the upstream fetch left it.
  method Install(q: Request, it: FetchRangeIterator, t: Track, r: Run)
    requires RequestOk(q) && Positioned(q, it) && it.end == q.past && it.current != it.end
    requires InStep(q, t, it.current, r) && NotEnded(r.events) && !r.lastObject
    modifies it`track
    ensures it.track == t && At(q, it, r, Ongoing)
  {
    it.track := t;
  }

  // The fetch of a missing stretch and the cache it leaves.
  method AskUpstream(q: Request, ghost t0: Track, r: Run, current: Loc) returns (t: Track, r': Run, failed: bool)
    requires RequestOk(q) && Synced(q, t0, r, current) && Booked(q, r, current) && r.miss.Some? && current.AtMost(q.past)
    requires NotEnded(r.events)
    ensures NotEnded(r'.events)
    ensures r'.events == r.events + [Upstream(Span(r.miss.value, current), false)] && r'.miss.None?
    ensures r'.lastObject == r.lastObject && (failed <==> q.upstream(r.replies).Failed?)
    ensures failed ==> Complete(q, r'.events, false)
    ensures !failed ==> InStep(q, t, current, r') && t == TrackAfter(q, r.replies + 1)
    ensures !failed && Contains(t0.gaps, current) ==> Contains(t.gaps, current)
  {
    NotEndedAppend(r.events, Upstream(Span(r.miss.value, current), false));
    var span := GetFetchIntervals(q.start, q.past, r.miss.value, current, OldestFirst, false)[0];
    var reply := q.upstream(r.replies);
    FlushBooked(q, r, current);
    t, r', failed := EMPTY_TRACK, r.(events := r.events + [Upstream(span, false)], miss := None), reply.Failed?;
    if !failed {
      t, r' := reply.moment.track, r'.(now := reply.moment.now, replies := r.replies + 1);
      SyncedReply(q, r, r', current);
    }
  }

  lemma FlushBooked(q: Request, r: Run, current: Loc)
    requires RequestOk(q) && Booked(q, r, current) && r.miss.Some? && current.AtMost(q.past)
    requires r.replies == 0 || q.upstream(r.replies - 1).Done?
    ensures var events := r.events + [Upstream(Span(r.miss.value, current), false)];
      var reply := q.upstream(r.replies);
      if reply.Failed? then Complete(q, events, false)
      else
        && GapsGrow(TrackAfter(q, r.replies), reply.moment.track)
        && Booked(q, r.(events := events, miss := None, now := reply.moment.now, replies := r.replies + 1), current)
  {
    var e := Upstream(Span(r.miss.value, current), false);
    var events := r.events + [e];
    AccountUpstream(q, r.events, r.replies, r.miss.value, current, false);
    if q.upstream(r.replies).Failed? {
      IncreasingUpTo(q, events, current);
    } else {
      assert GapsGrow(TrackAfter(q, r.replies), q.upstream(r.replies).moment.track);
      AccountGaps(q, events, TrackAfter(q, r.replies).gaps, TrackAfter(q, r.replies + 1).gaps, current, current);
    }
  }

  lemma IncreasingUpTo(q: Request, events: seq<Event>, hi: Loc)
    requires Increasing(events, q.start, hi) && SlipsAhead(q, events, hi) && hi.AtMost(q.past)
    ensures Increasing(events, q.start, q.past) && SlipsAhead(q, events, q.past)
  {
    forall i, x: Loc | 0 <= i < |events| && events[i].Holds(x) ensures InRange(q.start, q.past, x) {
      assert InRange(q.start, hi, x);
    }
  }

  // A known gap: go past it.
  method PassGap(q: Request, it: FetchRangeIterator, r: Run)
    requires At(q, it, r, Ongoing) && r.miss.None? && Contains(it.track.gaps, it.current)
    modifies it`current
    ensures At(q, it, r, Looping)
    ensures old(it.current).Less(it.current)
  {
    ghost var current := it.current;
    it.SkipGaps();
    SyncedOn(q, it.track, r, r, current, it.current);
    AccountGaps(q, r.events, it.track.gaps, it.track.gaps, current, it.current);
  }

  // The hit was looked up before the request in front of it, if that ends here.
  ghost predicate LookedUp(q: Request, r: Run, x: Loc) {
    Servable(MomentAfter(q, Decided(r.events + [Hit(x, false)], |r.events|)), x, q.defaultAge)
  }

  // A hit: serve it, marking it final when nothing can follow.
  method Serve(q: Request, it: FetchRangeIterator, r: Run) returns (r': Run)
    requires At(q, it, r, Ongoing) && r.miss.None? && LookedUp(q, r, it.current)
    modifies it
    ensures At(q, it, r', Looping) && Apart(r'.events, it.current)
    ensures old(it.current).Less(it.current) && it.track == old(it.track)
    ensures var fin := it.current == it.end;
      r' == r.(events := r.events + [Hit(old(it.current), fin)], served := true, lastObject := fin)
    ensures !StepExact(it.track, old(it.current), q.past) ==> old(it.current).group < it.current.group
  {
    var current := it.current;
    SyncedStep(q, it.track, r, current, current);
    var fin := Forward(q, it);
    r' := r.(events := r.events + [Hit(current, fin)], served := true, lastObject := fin);
    SyncedOn(q, it.track, r, r', current, it.current);
    ServeBooked(q, r, current, it.current, fin);
  }

  // The step to the next position, and whether that is the end.
  method Forward(q: Request, it: FetchRangeIterator) returns (fin: bool)
    requires Positioned(q, it) && TrackOk(it.track) && (it.track.endOfTrack ==> it.track.largest.Some?)
    requires it.end == q.past && it.current != it.end
    modifies it
    ensures Positioned(q, it) && it.track == old(it.track)
    ensures it.end == q.past || (it.end == it.current && PastEnd(it.track, it.current))
    ensures old(it.current).Less(it.current) && fin == (it.current == it.end)
    ensures StepExact(it.track, old(it.current), q.past) ==>
      forall x: Loc :: old(it.current).Less(x) && x.Less(it.current) ==> Contains(it.track.gaps, x)
    ensures !StepExact(it.track, old(it.current), q.past) ==>
      && old(it.current).group < it.current.group
      && forall x: Loc :: old(it.current).group < x.group && x.Less(it.current) ==> Contains(it.track.gaps, x)
  {
    it.Next();
    var end := it.End();
    fin := it.current == end;
  }

  lemma ServeBooked(q: Request, r: Run, current: Loc, next: Loc, fin: bool)
    requires Booked(q, r, current) && r.miss.None? && LookedUp(q, r, current)
    requires q.start.AtMost(current) && current.Less(next)
    requires StepExact(TrackAfter(q, r.replies), current, q.past) ==>
      forall x: Loc :: current.Less(x) && x.Less(next) ==> Contains(TrackAfter(q, r.replies).gaps, x)
    requires !StepExact(TrackAfter(q, r.replies), current, q.past) ==>
      && current.group < next.group
      && forall x: Loc :: current.Less(x) && x.Less(next) && x.group != current.group ==> Contains(TrackAfter(q, r.replies).gaps, x)
    ensures Booked(q, r.(events := r.events + [Hit(current, fin)], served := true, lastObject := fin), next)
  {
    HitDecided(r.events, current, fin);
    AccountHit(q, r.events, r.replies, current, next, fin);
  }

  lemma HitDecided(events: seq<Event>, x: Loc, fin: bool)
    ensures Decided(events + [Hit(x, fin)], |events|) == Decided(events + [Hit(x, false)], |events|)
  {
    RepliesAppend(events, Hit(x, fin), |events|);
    RepliesAppend(events, Hit(x, false), |events|);
    if |events| > 0 {
      RepliesAppend(events, Hit(x, fin), |events| - 1);
      RepliesAppend(events, Hit(x, false), |events| - 1);
    }
  }

  method Begin(q: Request, r: Run) returns (it: FetchRangeIterator, done: bool)
    requires RequestOk(q) && r == Run(q.first.now, 0, None, [], false, false)
    ensures fresh(it) && it.track == q.first.track
    ensures OnlyGaps(q.first.track.gaps, OldestFirst, q.start, q.past, q.start, it.current)
    ensures if done then At(q, it, r, Finished) else At(q, it, r, Ongoing) && !PastEnd(it.track, it.current)
    ensures done <==> it.current == q.past || PastEnd(it.track, it.current)
  {
    it := new FetchRangeIterator(q.start, q.past, OldestFirst, q.first.track);
    done := AtEnd(q, it, r);
  }

  // A bound on the turns still to come.
  ghost function Distance(current: Loc, past: Loc, done: bool): int {
    if done then 0 else 1 + Rank(past) - Rank(current)
  }

  // The last request ended before the current position.
  ghost predicate Apart(events: seq<Event>, current: Loc) {
    |events| > 0 && events[|events| - 1].Upstream? ==> events[|events| - 1].span.past.Less(current)
  }

  // One turn of the loop and the test whether there is another.
  method Turn(q: Request, it: FetchRangeIterator, r: Run) returns (r': Run, failed: bool, done: bool)
    requires At(q, it, r, Ongoing) && Apart(r.events, it.current) && !PastEnd(it.track, it.current)
    modifies it
    ensures if failed then Complete(q, r'.events, false)
            else if done then At(q, it, r', Finished)
            else At(q, it, r', Ongoing) && Apart(r'.events, it.current) && !PastEnd(it.track, it.current)
    ensures failed ==> done
    ensures 0 <= Distance(it.current, q.past, done) < old(Distance(it.current, q.past, false))
  {
    done := true;
    r', failed := Step(q, it, r);
    if !failed {
      done := AtEnd(q, it, r');
    }
  }

  // One iteration, short of the end.
  method Step(q: Request, it: FetchRangeIterator, r: Run) returns (r': Run, failed: bool)
    requires At(q, it, r, Ongoing) && Apart(r.events, it.current) && !PastEnd(it.track, it.current)
    modifies it
    ensures if failed then Complete(q, r'.events, false)
            else At(q, it, r', Looping) && old(it.current).Less(it.current) && Apart(r'.events, it.current)
  {
    failed := false;
    var hit, missed;
    r', hit, missed := Lookup(q, it, r);
    if !missed {
      r', failed := Boundary(q, it, r, hit);
    }
  }

  // A hit or a gap: first ask for what is missing before it.
  method Boundary(q: Request, it: FetchRangeIterator, r: Run, hit: bool) returns (r': Run, failed: bool)
    requires At(q, it, r, Ongoing) && Apart(r.events, it.current)
    requires if hit then Servable(MomentAfter(q, r.replies), it.current, q.defaultAge) else Contains(it.track.gaps, it.current)
    modifies it
    ensures if failed then Complete(q, r'.events, false)
            else At(q, it, r', Looping) && old(it.current).Less(it.current) && Apart(r'.events, it.current)
  {
    r', failed := r, false;
    if r.miss.Some? {
      r', failed := Flush(q, it, r);
      if failed {
        return;
      }
    }
    if hit {
      HitLookedUp(q, r, r', it.current);
      r' := Serve(q, it, r');
    } else {
      PassGap(q, it, r');
    }
  }

  // Whether or not a request came in between, the hit was fresh when looked up.
  lemma HitLookedUp(q: Request, r: Run, r': Run, x: Loc)
    requires Servable(MomentAfter(q, r.replies), x, q.defaultAge) && r.replies == Replies(r.events, |r.events|)
    requires if r.miss.Some? then r'.events == r.events + [Upstream(Span(r.miss.value, x), false)]
             else r' == r && Apart(r.events, x)
    ensures LookedUp(q, r', x)
  {
    var e := Hit(x, false);
    RepliesAppend(r'.events, e, |r'.events|);
    if |r'.events| > 0 {
      RepliesAppend(r'.events, e, |r'.events| - 1);
    }
    if r.miss.Some? {
      RepliesAppend(r.events, r'.events[|r.events|], |r.events|);
    }
  }

  /**
   * Serving a range oldest first, whatever the upstream fetches leave in the cache in
   * between. Events go strictly forward inside the range. Every hit was complete and
   * fresh in the cache as the fetches before its lookup left it, and only what was
   * missing there was asked for. Unless a fetch fails, every location of the range
   * is a known gap, past the end of the track, served, asked for, or lost because the
   * group of the hit before it was forgotten; what is lost is neither served nor asked
   * for. The consumer is told the end exactly once.
   */
  method FetchImpl(q: Request) returns (events: seq<Event>, ok: bool)
    requires RequestOk(q)
    ensures Increasing(events, q.start, q.past)
    ensures Honest(q, events)
    ensures ok ==> Accounted(q, events, TrackAfter(q, Replies(events, |events|)))
    ensures forall x: Loc :: Lost(q, events, x) ==> !Held(events, x)
    ensures ok <==> Answered(q, events)
    ensures ok ==> EndsOnce(events)
    ensures !ok ==> LastFailed(q, events)
  {
    var r := Run(q.first.now, 0, None, [], false, false);
    var it, done := Begin(q, r);
    var failed := false;
    while !done
      invariant fresh(it)
      invariant failed ==> done
      invariant if failed then Complete(q, r.events, false)
                else if done then At(q, it, r, Finished)
                else At(q, it, r, Ongoing) && Apart(r.events, it.current) && !PastEnd(it.track, it.current)
      decreases Distance(it.current, q.past, done)
    {
      r, failed, done := Turn(q, it, r);
    }
    events, ok := r.events, false;
    if !failed {
      events, ok := Finish(q, it, r);
    }
    forall x: Loc | Lost(q, events, x) ensures !Held(events, x) {
      LostIsNotHeld(q, events, q.start, q.past, x);
    }
  }

  // ---- What is lost ------------------------------------------------------------------

  // A request was made between the lookup of hit i and its delivery.
  ghost predicate AskedBefore(events: seq<Event>, i: nat)
    requires i < |events| && events[i].Hit?
  {
    i > 0 && events[i - 1].Waits() && events[i - 1].span.past == events[i].at
  }

  /**
   * A hit slips exactly when a request was made in front of it and the reply left its
   * group unknown.
   */
  lemma SlipsExactly(q: Request, events: seq<Event>, i: nat)
    requires RequestOk(q) && Answered(q, events) && i < |events| && events[i].Hit? && HonestAt(q, events, i)
    ensures Slips(q, events, i) <==>
      AskedBefore(events, i) && !StepExact(TrackAfter(q, Replies(events, i - 1) + 1), events[i].at, q.past)
  {
    var n, at := Replies(events, i), events[i].at;
    assert HasComplete(TrackAfter(q, Decided(events, i)), at);
    if !AskedBefore(events, i) {
      CompleteIsStepExact(TrackAfter(q, n), at, q.past);
    }
  }

  lemma CompleteIsStepExact(t: Track, x: Loc, past: Loc)
    requires TrackOk(t) && HasComplete(t, x)
    ensures StepExact(t, x, past)
  {
  }

  /** Then everything behind it in its group is lost: neither served nor asked for. */
  lemma ForgottenGroupIsLost(q: Request, events: seq<Event>, i: nat, x: Loc)
    requires RequestOk(q) && Answered(q, events) && i < |events| && events[i].Hit? && HonestAt(q, events, i)
    requires Increasing(events, q.start, q.past) && SlipsAhead(q, events, q.past)
    requires AskedBefore(events, i) && !StepExact(TrackAfter(q, Replies(events, i - 1) + 1), events[i].at, q.past)
    requires x.group == events[i].at.group && events[i].at.Less(x)
    ensures Lost(q, events, x) && !Held(events, x)
  {
    SlipsExactly(q, events, i);
    LostIsNotHeld(q, events, q.start, q.past, x);
  }

  // No upstream fetch makes the cache forget the group of an object it could serve.
  ghost predicate Steady(q: Request) {
    forall n, x: Loc :: q.upstream(n).Done? && HasComplete(TrackAfter(q, n), x) ==>
      StepExact(q.upstream(n).moment.track, x, q.past)
  }

  /** If no reply does so, nothing is lost. */
  lemma SteadyLosesNothing(q: Request, events: seq<Event>, x: Loc)
    requires RequestOk(q) && Steady(q) && Honest(q, events) && Answered(q, events)
    ensures !Lost(q, events, x)
  {
    forall i | 0 <= i < |events| && events[i].Hit? ensures !Slips(q, events, i) {
      assert HonestAt(q, events, i);
      SlipsExactly(q, events, i);
      if AskedBefore(events, i) {
        assert q.upstream(Replies(events, i - 1)).Done?;
      }
    }
  }

  // A track that holds two objects, the first two of group 1.
  method TwoObjects() returns (t: Track)
    ensures TrackOk(t) && t.gaps == [] && !t.endOfTrack && t.maxAge == None
    ensures forall x: Loc :: HasComplete(t, x) <==> x == Loc(1, 0) || x == Loc(1, 1)
    ensures forall x: Loc :: Contains(t.cached, x) <==> x == Loc(1, 0) || x == Loc(1, 1)
  {
    var none := EMPTY_TRACK.(groups := map[1 := Group(map[], 0, false, None, 0, false)]);
    assert Sizes(map[]) == map[];
    var one := OneMore(none, Loc(1, 0));
    t := OneMore(one, Loc(1, 1));
  }

  // The track with one more object.
  method OneMore(t0: Track, at: Loc) returns (t: Track)
    requires TrackOk(t0) && at.group in t0.groups
    ensures TrackOk(t) && at.group in t.groups
    ensures t.gaps == t0.gaps && t.endOfTrack == t0.endOfTrack && t.maxAge == t0.maxAge
    ensures forall x: Loc :: HasComplete(t, x) <==> x == at || HasComplete(t0, x)
    ensures forall x: Loc :: Contains(t.cached, x) <==> x == at || Contains(t0.cached, x)
  {
    var e := Entry(0, Normal, false, 0, true, false, 0);
    t := PutEntry(t0, at, e, false);
    forall x: Loc
      ensures HasComplete(t, x) <==> x == at || HasComplete(t0, x)
      ensures Contains(t.cached, x) <==> x == at || Contains(t0.cached, x)
    {
      PutEntryAt(t0, at, e, false, x);
    }
  }

  // A fetch of groups 0 and 1 whose upstream leaves an empty track behind.
  method ForgettingRequest() returns (q: Request)
    ensures RequestOk(q) && q.start == Loc(0, 0) && q.past == Loc(2, 0) && q.defaultAge == None
    ensures q.first.track.gaps == [] && !q.first.track.endOfTrack
    ensures forall x: Loc :: Fresh(q.first, x, None) <==> x == Loc(1, 0) || x == Loc(1, 1)
    ensures forall x: Loc :: Contains(q.first.track.cached, x) <==> x == Loc(1, 0) || x == Loc(1, 1)
    ensures forall k: nat :: q.upstream(k) == Done(Moment(EMPTY_TRACK, 0))
  {
    var t := TwoObjects();
    q := Request(Loc(0, 0), Loc(2, 0), Moment(t, 0), None, (k: nat) => Done(Moment(EMPTY_TRACK, 0)));
  }

  // Its first turn: a miss in group 0, up to the first object of group 1.
  method ForgettingStart(q: Request) returns (it: FetchRangeIterator, r: Run)
    requires RequestOk(q) && q.start == Loc(0, 0) && q.past == Loc(2, 0) && q.defaultAge == None
    requires q.first.track.gaps == [] && !q.first.track.endOfTrack
    requires forall x: Loc :: Fresh(q.first, x, None) <==> x == Loc(1, 0) || x == Loc(1, 1)
    requires forall x: Loc :: Contains(q.first.track.cached, x) <==> x == Loc(1, 0) || x == Loc(1, 1)
    ensures fresh(it) && At(q, it, r, Ongoing) && it.current == Loc(1, 0)
    ensures r.miss == Some(Loc(0, 0)) && r.events == [] && r.replies == 0
  {
    r := Run(q.first.now, 0, None, [], false, false);
    var done;
    it, done := Begin(q, r);
    assert it.current == q.start by {
      assert it.current != q.start ==> Visited(OldestFirst, q.start, q.past, q.start, it.current, q.start);
    }
    var hit, missed;
    r, hit, missed := LookAndJump(q, it, r);
    assert !Contains(it.track.cached, Loc(0, 0));
    assert Contains(it.track.cached, Loc(1, 0));
    done := AtEnd(q, it, r);
  }

  // Its second turn: a hit, the request in front of it, and the step out of its group.
  method ForgettingTurn(q: Request, it: FetchRangeIterator, r: Run) returns (r': Run)
    requires q.past == Loc(2, 0) && q.upstream(0) == Done(Moment(EMPTY_TRACK, 0))
    requires Servable(q.first, Loc(1, 0), q.defaultAge)
    requires At(q, it, r, Ongoing) && it.current == Loc(1, 0)
    requires r.miss == Some(Loc(0, 0)) && r.events == [] && r.replies == 0
    modifies it
    ensures At(q, it, r', Finished) && r'.lastObject
    ensures r'.events == [Upstream(Span(Loc(0, 0), Loc(1, 0)), false), Hit(Loc(1, 0), true)]
  {
    var hit, missed;
    r', hit, missed := Lookup(q, it, r);
    r' := ForgettingFlush(q, it, r);
    r' := ForgettingServe(q, it, r');
  }

  method ForgettingFlush(q: Request, it: FetchRangeIterator, r: Run) returns (r': Run)
    requires q.upstream(0) == Done(Moment(EMPTY_TRACK, 0)) && Servable(q.first, Loc(1, 0), q.defaultAge)
    requires At(q, it, r, Ongoing) && it.current == Loc(1, 0)
    requires r.miss == Some(Loc(0, 0)) && r.events == [] && r.replies == 0
    modifies it`track
    ensures At(q, it, r', Ongoing) && it.track == EMPTY_TRACK && LookedUp(q, r', Loc(1, 0)) && r'.miss.None?
    ensures r'.events == [Upstream(Span(Loc(0, 0), Loc(1, 0)), false)]
  {
    var failed;
    r', failed := Flush(q, it, r);
    HitLookedUp(q, r, r', it.current);
  }

  method ForgettingServe(q: Request, it: FetchRangeIterator, r: Run) returns (r': Run)
    requires q.past == Loc(2, 0) && it.track == EMPTY_TRACK && LookedUp(q, r, Loc(1, 0)) && r.miss.None?
    requires At(q, it, r, Ongoing) && it.current == Loc(1, 0)
    requires r.events == [Upstream(Span(Loc(0, 0), Loc(1, 0)), false)]
    modifies it
    ensures At(q, it, r', Finished) && r'.lastObject
    ensures r'.events == [Upstream(Span(Loc(0, 0), Loc(1, 0)), false), Hit(Loc(1, 0), true)]
  {
    r' := Serve(q, it, r);
    var done := AtEnd(q, it, r');
  }

  /**
   * The failing input: the group of the first hit is forgotten while the miss in front
   * of it is asked for, and its second object, which was in the cache and is not known
   * to be absent, is neither served nor asked for.
   */
  method ForgottenObject() returns (q: Request, events: seq<Event>)
    ensures RequestOk(q) && Complete(q, events, true) && !Steady(q)
    ensures events == [Upstream(Span(Loc(0, 0), Loc(1, 0)), false), Hit(Loc(1, 0), true)]
    ensures Fresh(q.first, Loc(1, 1), q.defaultAge) && InRange(q.start, q.past, Loc(1, 1))
    ensures !Contains(TrackAfter(q, 1).gaps, Loc(1, 1)) && Lost(q, events, Loc(1, 1)) && !Held(events, Loc(1, 1))
  {
    q := ForgettingRequest();
    events := ForgettingFetch(q);
    assert Fresh(q.first, Loc(1, 0), None) && Fresh(q.first, Loc(1, 1), None);
    ForgottenIsLost(q, events);
  }

  // All turns of the fetch.
  method ForgettingFetch(q: Request) returns (events: seq<Event>)
    requires RequestOk(q) && q.start == Loc(0, 0) && q.past == Loc(2, 0) && q.defaultAge == None
    requires q.first.track.gaps == [] && !q.first.track.endOfTrack && q.upstream(0) == Done(Moment(EMPTY_TRACK, 0))
    requires forall x: Loc :: Fresh(q.first, x, None) <==> x == Loc(1, 0) || x == Loc(1, 1)
    requires forall x: Loc :: Contains(q.first.track.cached, x) <==> x == Loc(1, 0) || x == Loc(1, 1)
    ensures Complete(q, events, true)
    ensures events == [Upstream(Span(Loc(0, 0), Loc(1, 0)), false), Hit(Loc(1, 0), true)]
  {
    var it, r := ForgettingStart(q);
    r := ForgettingTurn(q, it, r);
    var ok;
    events, ok := Finish(q, it, r);
  }

  lemma ForgottenIsLost(q: Request, events: seq<Event>)
    requires events == [Upstream(Span(Loc(0, 0), Loc(1, 0)), false), Hit(Loc(1, 0), true)]
    requires q.past == Loc(2, 0) && q.upstream(0) == Done(Moment(EMPTY_TRACK, 0)) && HasComplete(q.first.track, Loc(1, 0))
    ensures Lost(q, events, Loc(1, 1)) && !Held(events, Loc(1, 1)) && !Steady(q)
  {
    assert Replies(events, 0) == 0 && Replies(events, 1) == 1;
    assert !StepExact(EMPTY_TRACK, Loc(1, 0), q.past);
    assert Slips(q, events, 1);
    assert HasComplete(TrackAfter(q, 0), Loc(1, 0));
  }

  // ---- Against a scan of one location at a time ---------------------------------

  datatype Verdict = Skip | Send | Ask

  // What a walk over single locations would do at x.
  function Scan(m: Moment, x: Loc, defaultAge: Option<nat>): Verdict {
    if Contains(m.track.gaps, x) || PastEnd(m.track, x) then Skip
    else if Fresh(m, x, defaultAge) then Send
    else Ask
  }

  ghost predicate Sent(events: seq<Event>, x: Loc) {
    exists i :: 0 <= i < |events| && events[i].Hit? && events[i].at == x
  }

  ghost predicate Asked(events: seq<Event>, x: Loc) {
    exists i :: 0 <= i < |events| && events[i].Upstream? && events[i].span.Holds(x)
  }

  // An upstream fetch changes the scan at most where it was asked.
  ghost predicate Filling(q: Request, events: seq<Event>) {
    forall i, x: Loc :: 0 <= i < |events| && events[i].Waits() && !events[i].Holds(x) ==>
      var n := Replies(events, i);
      Scan(MomentAfter(q, n + 1), x, q.defaultAge) == Scan(MomentAfter(q, n), x, q.defaultAge)
  }

  // Up to the event that concerns x, the scan says of x what it said at first.
  lemma {:induction false} ScanUnchanged(q: Request, events: seq<Event>, i: nat, x: Loc)
    requires Filling(q, events) && i <= |events|
    requires forall j :: 0 <= j < i ==> !events[j].Holds(x)
    ensures Scan(MomentAfter(q, Replies(events, i)), x, q.defaultAge) == Scan(q.first, x, q.defaultAge)
    decreases i
  {
    if i > 0 {
      ScanUnchanged(q, events, i - 1, x);
      assert !events[i - 1].Holds(x);
    }
  }

  // x may be skipped by the walk and still asked for, for one of two reasons.
  ghost predicate AskedAnyway(q: Request, events: seq<Event>, i: nat, x: Loc)
    requires i < |events|
  {
    && events[i].Upstream? && events[i].span.Holds(x)
    && var t := TrackAfter(q, Replies(events, i));
       (Contains(t.gaps, x) && !Contains(t.cached, x)) || PastEnd(t, x)
  }

  lemma HolderAgrees(q: Request, events: seq<Event>, i: nat, x: Loc)
    requires Increasing(events, q.start, q.past) && Honest(q, events) && Filling(q, events)
    requires i < |events| && events[i].Holds(x)
    ensures var first := Scan(q.first, x, q.defaultAge);
      first != Skip ==> first == if events[i].Hit? then Send else Ask
    ensures Scan(q.first, x, q.defaultAge) == Skip && events[i].Upstream? ==> AskedAnyway(q, events, i, x)
  {
    assert forall j :: 0 <= j < i && events[j].Holds(x) ==> x.Less(x);
    ScanUnchanged(q, events, i, x);
    assert HonestAt(q, events, i);
    if events[i].Hit? && i > 0 {
      ScanUnchanged(q, events, i - 1, x);
    }
  }

  // Hit i is an object that is known to be absent.
  ghost predicate HitInGap(q: Request, events: seq<Event>, i: nat)
    requires i < |events| && events[i].Hit?
  {
    Contains(TrackAfter(q, Decided(events, i)).gaps, events[i].at)
  }

  /** While the upstream only fills in what it is asked for, no other hit slips. */
  lemma FillingNeverSlips(q: Request, events: seq<Event>, i: nat)
    requires RequestOk(q) && Answered(q, events) && Filling(q, events)
    requires i < |events| && events[i].Hit? && HonestAt(q, events, i) && !HitInGap(q, events, i)
    ensures !Slips(q, events, i)
  {
    SlipsExactly(q, events, i);
    if AskedBefore(events, i) {
      var n, at := Replies(events, i - 1), events[i].at;
      assert !events[i - 1].Holds(at);
      assert Scan(MomentAfter(q, n), at, q.defaultAge) == Send;
      CompleteIsStepExact(TrackAfter(q, n + 1), at, q.past);
    }
  }

  // x lies behind a hit that is known to be absent.
  ghost predicate BehindGap(q: Request, events: seq<Event>, x: Loc) {
    exists i :: 0 <= i < |events| && events[i].Hit? && HitInGap(q, events, i)
      && events[i].at.group == x.group && events[i].at.Less(x)
  }

  // What the loop did at x, in terms of what the walk would do there.
  ghost predicate AsScanned(q: Request, events: seq<Event>, x: Loc) {
    match Scan(q.first, x, q.defaultAge)
    case Send => Sent(events, x) && !Asked(events, x)
    case Ask => Asked(events, x) && !Sent(events, x)
    case Skip => Asked(events, x) ==> exists i :: 0 <= i < |events| && AskedAnyway(q, events, i, x)
  }

  /**
   * The jumping loop against the walk over single locations, for a fetch that
   * succeeds while the upstream only fills in what it is asked for: it sends and asks
   * for exactly what the walk would. Of what the walk skips, it asks at most for gaps
   * the index has lost and for what lies past the end of the track. Only behind an
   * object in a known gap this may fail.
   */
  lemma LoopAgreesWithScan(q: Request, events: seq<Event>, x: Loc)
    requires RequestOk(q) && Increasing(events, q.start, q.past) && Honest(q, events) && Answered(q, events)
    requires Filling(q, events) && Accounted(q, events, TrackAfter(q, Replies(events, |events|)))
    requires InRange(q.start, q.past, x) && !BehindGap(q, events, x)
    ensures AsScanned(q, events, x)
  {
    forall i | 0 <= i < |events| && events[i].Hit? && events[i].at.Less(x) && x.group == events[i].at.group
      ensures !Slips(q, events, i)
    {
      assert HonestAt(q, events, i);
      FillingNeverSlips(q, events, i);
    }
    if Held(events, x) {
      var i :| 0 <= i < |events| && events[i].Holds(x);
      HolderAgrees(q, events, i, x);
      assert forall j :: 0 <= j < |events| && j != i && events[j].Holds(x) ==> x.Less(x);
    } else {
      ScanUnchanged(q, events, |events|, x);
      assert !Lost(q, events, x);
    }
  }

  /** The fetch itself against the walk over single locations. */
  method FetchAgreesWithScan(q: Request) returns (events: seq<Event>, ok: bool)
    requires RequestOk(q)
    ensures ok && Filling(q, events) ==>
      forall x: Loc :: InRange(q.start, q.past, x) && !BehindGap(q, events, x) ==> AsScanned(q, events, x)
    ensures ok && Steady(q) ==> forall x: Loc :: !Lost(q, events, x)
  {
    events, ok := FetchImpl(q);
    if ok && Filling(q, events) {
      forall x: Loc | InRange(q.start, q.past, x) && !BehindGap(q, events, x) ensures AsScanned(q, events, x) {
        LoopAgreesWithScan(q, events, x);
      }
    }
    if ok && Steady(q) {
      forall x: Loc ensures !Lost(q, events, x) {
        SteadyLosesNothing(q, events, x);
      }
    }
  }

  // ---- A stale index ----------------------------------------------------------------

  /**
   * Beginning a cached object again, with a first part as long as the whole, leaves
   * its location indexed though it is neither a gap nor complete.
   */
  method RestartObject(t0: Track, x: Loc, now: nat, defaultAge: Option<nat>) returns (t: Track)
    requires TrackOk(t0) && IndexExact(t0) && HasComplete(t0, x) && !Contains(t0.gaps, x)
    requires var e := t0.groups[x.group].objects[x.obj]; e.status == Normal && !e.datagram
    ensures TrackOk(t) && forall y: Loc :: Stale(Moment(t, now), y, defaultAge) <==> y == x
  {
    var e := t0.groups[x.group].objects[x.obj];
    var payload := if e.hasPayload then Some(e.size) else None;
    var r;
    t, r := CacheObject(t0, x, e.subgroup, Normal, GapExtensions(None, None), payload, false, false, now);
  }

  /**
   * A turn at a stale location, not past the end of the track, changes nothing: the
   * loop condition holds, the lookup misses, and the jump stays. Without a wait the
   * time does not move on either, so the loop never ends.
   */
  method StuckTurn(it: FetchRangeIterator, now: nat, defaultAge: Option<nat>) returns (another: bool)
    requires it.Ok() && it.valid && it.order == OldestFirst && TrackOk(it.track)
    requires it.end == it.max && it.current != it.end && (it.track.endOfTrack ==> it.track.largest.Some?)
    requires Stale(Moment(it.track, now), it.current, defaultAge) && !PastEnd(it.track, it.current)
    modifies it
    ensures another
    ensures it.track == old(it.track) && it.current == old(it.current) && it.end == old(it.end) && it.valid
  {
    var end := it.End();
    another := it.current != end;
    var hit, missed := Look(it, now, defaultAge);
  }
}
