/**
 * The ranking of tracks by a property value: a list sorted by rank key, its first
 * N tracks, and the first N tracks that a given session does not publish itself.
 */
module RankedLists {
  type TrackName = string
  type Session = nat

  datatype RankKey = RankKey(value: nat, arrival: nat) {
    // A higher value ranks first; among equals the earlier arrival does.
    predicate Above(that: RankKey) {
      value > that.value || (value == that.value && arrival < that.arrival)
    }
  }

  datatype Ranked = Ranked(key: RankKey, name: TrackName, publisher: Session)

  type Ranking = seq<Ranked>

  ghost predicate Sorted(r: Ranking) {
    forall i, j :: 0 <= i < j < |r| ==> r[i].key.Above(r[j].key)
  }

  // The tracks ahead of rank k are those of higher value, and of those of equal value
  // the ones that arrived earlier.
  ghost predicate Placed(r: Ranking, k: nat)
    requires k < |r|
  {
    forall j :: 0 <= j < |r| && j != k ==>
      (j < k <==> if r[j].key.value == r[k].key.value then r[j].key.arrival < r[k].key.arrival
                  else r[j].key.value > r[k].key.value)
  }

  lemma SortedIsPlaced(r: Ranking, k: nat)
    requires Sorted(r) && k < |r|
    ensures Placed(r, k)
  {
    forall j | 0 <= j < |r| && j != k
      ensures j < k <==> if r[j].key.value == r[k].key.value then r[j].key.arrival < r[k].key.arrival
                         else r[j].key.value > r[k].key.value
    {
      assert if j < k then r[j].key.Above(r[k].key) else r[k].key.Above(r[j].key);
    }
  }

  // Names and arrival numbers are never shared.
  ghost predicate Distinct(r: Ranking) {
    forall i, j :: 0 <= i < j < |r| ==> r[i].name != r[j].name && r[i].key.arrival != r[j].key.arrival
  }

  ghost function Names(r: Ranking): set<TrackName> {
    set i | 0 <= i < |r| :: r[i].name
  }

  function First(r: Ranking, n: nat): Ranking {
    if n <= |r| then r[..n] else r
  }

  // The first n tracks.
  ghost function Top(r: Ranking, n: nat): set<TrackName> {
    Names(First(r, n))
  }

  function NonSelf(r: Ranking, s: Session): Ranking {
    if |r| == 0 then []
    else if r[0].publisher == s then NonSelf(r[1..], s)
    else [r[0]] + NonSelf(r[1..], s)
  }

  // The first n tracks that s does not publish itself.
  ghost function PersonalTop(r: Ranking, s: Session, n: nat): set<TrackName> {
    Top(NonSelf(r, s), n)
  }

  // ---- Editing the list -----------------------------------------------------------

  function Position(r: Ranking, key: RankKey): (p: nat)
    ensures p <= |r|
  {
    if |r| == 0 || !r[0].key.Above(key) then 0 else 1 + Position(r[1..], key)
  }

  function InsertAt(r: Ranking, j: nat, e: Ranked): Ranking
    requires j <= |r|
  {
    r[..j] + [e] + r[j..]
  }

  function RemoveAt(r: Ranking, i: nat): Ranking
    requires i < |r|
  {
    r[..i] + r[i + 1..]
  }

  lemma {:induction false} PositionSplits(r: Ranking, key: RankKey)
    requires Sorted(r)
    ensures var p := Position(r, key);
      && (forall i :: 0 <= i < p ==> r[i].key.Above(key))
      && (forall i :: p <= i < |r| ==> !r[i].key.Above(key))
  {
    if |r| > 0 && r[0].key.Above(key) {
      PositionSplits(r[1..], key);
      assert forall i :: 1 <= i < |r| ==> r[i] == r[1..][i - 1];
    }
  }

  // e shares neither name nor arrival number with the list.
  ghost predicate New(r: Ranking, e: Ranked) {
    forall i :: 0 <= i < |r| ==> r[i].name != e.name && r[i].key.arrival != e.key.arrival
  }

  lemma InsertAtIndex(r: Ranking, j: nat, e: Ranked, k: nat)
    requires j <= |r| && k <= |r|
    ensures InsertAt(r, j, e)[k] == if k < j then r[k] else if k == j then e else r[k - 1]
  {
  }

  lemma InsertKeepsOrder(r: Ranking, e: Ranked)
    requires Sorted(r) && New(r, e)
    ensures Sorted(InsertAt(r, Position(r, e.key), e))
  {
    PositionSplits(r, e.key);
    var p := Position(r, e.key);
    var r' := InsertAt(r, p, e);
    forall k, l | 0 <= k < l < |r'| ensures r'[k].key.Above(r'[l].key) {
      InsertAtIndex(r, p, e, k);
      InsertAtIndex(r, p, e, l);
    }
  }

  lemma InsertKeepsDistinct(r: Ranking, j: nat, e: Ranked)
    requires Distinct(r) && New(r, e) && j <= |r|
    ensures Distinct(InsertAt(r, j, e))
  {
    var r' := InsertAt(r, j, e);
    forall k, l | 0 <= k < l < |r'| ensures r'[k].name != r'[l].name && r'[k].key.arrival != r'[l].key.arrival {
      InsertAtIndex(r, j, e, k);
      InsertAtIndex(r, j, e, l);
    }
  }

  lemma InsertNames(r: Ranking, j: nat, e: Ranked)
    requires j <= |r|
    ensures Names(InsertAt(r, j, e)) == Names(r) + {e.name}
  {
    var r' := InsertAt(r, j, e);
    assert r'[j] == e;
    forall i | 0 <= i < |r| ensures r[i].name in Names(r') {
      assert r'[if i < j then i else i + 1] == r[i];
    }
  }

  lemma RemoveAtIndex(r: Ranking, i: nat, k: nat)
    requires i < |r| && k < |r| - 1
    ensures RemoveAt(r, i)[k] == r[if k < i then k else k + 1]
  {
  }

  lemma RemoveKeepsOrder(r: Ranking, i: nat)
    requires Sorted(r) && Distinct(r) && i < |r|
    ensures Sorted(RemoveAt(r, i)) && Distinct(RemoveAt(r, i)) && New(RemoveAt(r, i), r[i])
  {
    var r' := RemoveAt(r, i);
    assert forall k :: 0 <= k < |r'| ==> r'[k] == r[if k < i then k else k + 1];
  }

  lemma RemoveNames(r: Ranking, i: nat)
    requires Distinct(r) && i < |r|
    ensures Names(RemoveAt(r, i)) == Names(r) - {r[i].name}
  {
    var r' := RemoveAt(r, i);
    assert forall k :: 0 <= k < |r'| ==> r'[k] == r[if k < i then k else k + 1];
    forall k | 0 <= k < |r| && k != i ensures r[k].name in Names(r') {
      assert r'[if k < i then k else k - 1] == r[k];
    }
  }

  // ---- The first n after an edit -----------------------------------------------------

  lemma NamesAppend(a: Ranking, b: Ranking)
    ensures Names(a + b) == Names(a) + Names(b)
  {
    forall i | 0 <= i < |a| ensures a[i].name in Names(a + b) {
      assert (a + b)[i] == a[i];
    }
    forall i | 0 <= i < |b| ensures b[i].name in Names(a + b) {
      assert (a + b)[|a| + i] == b[i];
    }
  }

  lemma NamesOne(e: Ranked)
    ensures Names([e]) == {e.name}
  {
    assert [e][0] == e;
  }

  /** A new entry above the cut pushes the last of the first n below it; below the cut it changes nothing. */
  lemma TopInsert(r: Ranking, j: nat, e: Ranked, n: nat)
    requires j <= |r| && Distinct(r) && New(r, e)
    ensures var r' := InsertAt(r, j, e);
      Top(r', n) ==
        if j >= n then Top(r, n)
        else if n > |r| then Top(r, n) + {e.name}
        else Top(r, n) + {e.name} - {r'[n].name}
  {
    var r' := InsertAt(r, j, e);
    if j >= n {
      assert r'[..n] == r[..n];
    } else if n > |r| {
      InsertNames(r, j, e);
    } else {
      assert r'[..n] == InsertAt(r[..n - 1], j, e);
      InsertNames(r[..n - 1], j, e);
      assert r[..n] == r[..n - 1] + [r[n - 1]];
      NamesAppend(r[..n - 1], [r[n - 1]]);
      NamesOne(r[n - 1]);
      assert r'[n] == r[n - 1];
    }
  }

  /** Taking an entry above the cut away lets the next one in. */
  lemma TopRemove(r: Ranking, i: nat, n: nat)
    requires i < |r| && Distinct(r)
    ensures var r' := RemoveAt(r, i);
      Top(r', n) ==
        if i >= n then Top(r, n)
        else if n > |r'| then Top(r, n) - {r[i].name}
        else Top(r, n) - {r[i].name} + {r'[n - 1].name}
  {
    var r' := RemoveAt(r, i);
    if i >= n {
      assert r'[..n] == r[..n];
    } else if n > |r'| {
      RemoveNames(r, i);
    } else {
      assert r'[..n] == RemoveAt(r[..n + 1], i);
      RemoveNames(r[..n + 1], i);
      assert r[..n + 1] == r[..n] + [r[n]];
      NamesAppend(r[..n], [r[n]]);
      NamesOne(r[n]);
      assert r'[n - 1] == r[n];
    }
  }

  // An entry taken from position i and put back, under a new key, at position j.
  function Moved(r: Ranking, i: nat, j: nat, e: Ranked): Ranking
    requires i < |r| && j < |r|
  {
    InsertAt(RemoveAt(r, i), j, e)
  }

  // Membership in the first n is a matter of position.
  lemma InTop(r: Ranking, i: nat, n: nat)
    requires Distinct(r) && i < |r|
    ensures r[i].name in Top(r, n) <==> i < n
  {
    if i < n {
      assert First(r, n)[i] == r[i];
    }
  }

  lemma RemoveThenInsert(r: Ranking, i: nat)
    requires i < |r|
    ensures InsertAt(RemoveAt(r, i), i, r[i]) == r
  {
  }

  /** A move across the cut swaps one track; a move on one side of it changes nothing. */
  lemma TopMove(r: Ranking, i: nat, j: nat, e: Ranked, n: nat)
    requires Distinct(r) && i < |r| && j < |r| && e.name == r[i].name
    requires Distinct(RemoveAt(r, i)) && New(RemoveAt(r, i), e)
    ensures var r' := Moved(r, i, j, e);
      Top(r', n) ==
        if (i < n) == (j < n) then Top(r, n)
        else if j < n then Top(r, n) + {e.name} - {r'[n].name}
        else Top(r, n) - {e.name} + {r'[n - 1].name}
  {
    var m := RemoveAt(r, i);
    TopInsert(m, j, e, n);
    if i >= n {
      TopRemove(r, i, n);
    } else if n > |m| {
      TopRemove(r, i, n);
      InTop(r, i, n);
      assert Top(m, n) + {e.name} == Top(r, n);
    } else {
      TopWithout(r, i, n);
      InsertAtIndex(m, j, e, if j < n then n else n - 1);
    }
  }

  // The first n without one of them: the next one, which was not among them, comes in.
  lemma TopWithout(r: Ranking, i: nat, n: nat)
    requires Distinct(r) && i < n < |r|
    ensures var m := RemoveAt(r, i);
      && r[i].name in Top(r, n) && m[n - 1].name !in Top(r, n) && Top(m, n) == Top(r, n) - {r[i].name} + {m[n - 1].name}
      && Top(m, n) + {r[i].name} - {m[n - 1].name} == Top(r, n)
  {
    TopRemove(r, i, n);
    InTop(r, i, n);
    RemoveAtIndex(r, i, n - 1);
    InTop(r, n, n);
  }

  // ---- Tracks of others ---------------------------------------------------------------

  lemma {:induction false} NonSelfAppend(a: Ranking, b: Ranking, s: Session)
    ensures NonSelf(a + b, s) == NonSelf(a, s) + NonSelf(b, s)
  {
    if |a| == 0 {
      assert a + b == b;
    } else {
      assert (a + b)[1..] == a[1..] + b && (a + b)[0] == a[0];
      NonSelfAppend(a[1..], b, s);
      if a[0].publisher != s {
        assert [a[0]] + (NonSelf(a[1..], s) + NonSelf(b, s)) == ([a[0]] + NonSelf(a[1..], s)) + NonSelf(b, s);
      }
    }
  }

  // Adding, or taking away, a track of its own changes nothing for a session.
  lemma {:induction false} NonSelfOwn(r: Ranking, j: nat, e: Ranked)
    requires j <= |r|
    ensures NonSelf(InsertAt(r, j, e), e.publisher) == NonSelf(r, e.publisher)
    decreases j
  {
    var after := InsertAt(r, j, e);
    if j == 0 {
      assert after[1..] == r;
    } else {
      assert after[0] == r[0] && after[1..] == InsertAt(r[1..], j - 1, e);
      NonSelfOwn(r[1..], j - 1, e);
    }
  }

  lemma NonSelfOwnMove(r: Ranking, i: nat, j: nat, e: Ranked)
    requires i < |r| && j < |r| && e.publisher == r[i].publisher
    ensures NonSelf(Moved(r, i, j, e), e.publisher) == NonSelf(r, e.publisher)
  {
    var m := RemoveAt(r, i);
    NonSelfOwn(m, j, e);
    RemoveThenInsert(r, i);
    NonSelfOwn(m, i, r[i]);
  }

  function OwnCount(r: Ranking, s: Session): nat {
    if |r| == 0 then 0 else (if r[0].publisher == s then 1 else 0) + OwnCount(r[1..], s)
  }

  lemma {:induction false} OwnCountAppend(a: Ranking, b: Ranking, s: Session)
    ensures OwnCount(a + b, s) == OwnCount(a, s) + OwnCount(b, s)
  {
    if |a| == 0 {
      assert a + b == b;
    } else {
      OwnCountAppend(a[1..], b, s);
      assert (a + b)[1..] == a[1..] + b;
    }
  }

  lemma {:induction false} NonSelfCount(r: Ranking, s: Session)
    ensures |NonSelf(r, s)| + OwnCount(r, s) == |r|
  {
    if |r| > 0 {
      NonSelfCount(r[1..], s);
    }
  }

  lemma OwnCountInsert(r: Ranking, j: nat, e: Ranked, s: Session)
    requires j <= |r|
    ensures OwnCount(InsertAt(r, j, e), s) == OwnCount(r, s) + if e.publisher == s then 1 else 0
  {
    OwnCountAppend(r[..j] + [e], r[j..], s);
    OwnCountAppend(r[..j], [e], s);
    OwnCountAppend(r[..j], r[j..], s);
    assert r[..j] + r[j..] == r;
  }

  lemma OwnCountRemove(r: Ranking, i: nat, s: Session)
    requires i < |r|
    ensures OwnCount(RemoveAt(r, i), s) == OwnCount(r, s) - if r[i].publisher == s then 1 else 0
  {
    OwnCountInsert(RemoveAt(r, i), i, r[i], s);
    RemoveThenInsert(r, i);
  }

  /**
   * The first n tracks of others lie among the first n + own tracks: two rankings
   * that agree that far agree on them.
   */
  lemma PersonalTopPrefix(a: Ranking, b: Ranking, s: Session, n: nat, k: nat)
    requires k <= |a| && k <= |b| && a[..k] == b[..k]
    requires n + OwnCount(a, s) <= k
    ensures PersonalTop(a, s, n) == PersonalTop(b, s, n)
  {
    var p := a[..k];
    NonSelfAppend(p, a[k..], s);
    NonSelfAppend(p, b[k..], s);
    assert p + a[k..] == a && p + b[k..] == b;
    OwnCountAppend(p, a[k..], s);
    NonSelfCount(p, s);
    assert First(NonSelf(a, s), n) == NonSelf(p, s)[..n] == First(NonSelf(b, s), n);
  }
}
