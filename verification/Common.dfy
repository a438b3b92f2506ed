/** Small collection facts shared by the components. */
module Common {

  datatype Option<+T> = None | Some(value: T)

  // ---- Sums of the values of a finite map -------------------------------------

  ghost function Sum<K(!new)>(m: map<K, nat>): nat {
    if m == map[] then 0
    else
      var k :| k in m;
      m[k] + Sum(m - {k})
  }

  // The sum does not depend on the order in which keys are taken out.
  lemma {:induction false} SumTakeOut<K(!new)>(m: map<K, nat>, k: K)
    requires k in m
    ensures Sum(m) == m[k] + Sum(m - {k})
    decreases |m|
  {
    var j :| j in m && Sum(m) == m[j] + Sum(m - {j});
    if j != k {
      SumTakeOut(m - {j}, k);
      SumTakeOut(m - {k}, j);
      assert m - {j} - {k} == m - {k} - {j};
    }
  }

  lemma SumPut<K(!new)>(m: map<K, nat>, k: K, v: nat)
    ensures Sum(m[k := v]) == Sum(m - {k}) + v
    ensures k in m ==> Sum(m[k := v]) == Sum(m) - m[k] + v
    ensures k !in m ==> Sum(m[k := v]) == Sum(m) + v
  {
    SumTakeOut(m[k := v], k);
    assert m[k := v] - {k} == m - {k};
    if k in m {
      SumTakeOut(m, k);
    } else {
      assert m - {k} == m;
    }
  }

  // ---- Lists without repetition -----------------------------------------------

  function Elems<T>(s: seq<T>): set<T> {
    set x | x in s
  }

  predicate NoDup<T(==)>(s: seq<T>) {
    |s| == 0 || (s[0] !in s[1..] && NoDup(s[1..]))
  }

  function Without<T(==)>(s: seq<T>, x: T): seq<T> {
    if |s| == 0 then []
    else if s[0] == x then Without(s[1..], x)
    else [s[0]] + Without(s[1..], x)
  }

  lemma {:induction false} WithoutElems<T>(s: seq<T>, x: T)
    ensures Elems(Without(s, x)) == Elems(s) - {x}
    ensures NoDup(s) ==> NoDup(Without(s, x))
    ensures x !in s ==> Without(s, x) == s
  {
    if |s| > 0 {
      WithoutElems(s[1..], x);
      assert Elems(s) == {s[0]} + Elems(s[1..]);
      if s[0] != x {
        var r := Without(s, x);
        assert r[1..] == Without(s[1..], x);
        assert Elems(r) == {s[0]} + Elems(r[1..]);
        assert s[0] in r[1..] <==> s[0] in Elems(r[1..]);
      }
    }
  }

  // Taking out the last element of a list without repetition.
  lemma {:induction false} WithoutLast<T>(s: seq<T>)
    requires NoDup(s) && |s| > 0
    ensures Without(s, s[|s| - 1]) == s[..|s| - 1]
  {
    if |s| == 1 {
      assert Without(s[1..], s[0]) == [];
    } else {
      WithoutLast(s[1..]);
      assert s[1..][|s| - 2] == s[|s| - 1];
      assert s[..|s| - 1] == [s[0]] + s[1..][..|s| - 2];
    }
  }

  lemma {:induction false} AppendNoDup<T>(s: seq<T>, x: T)
    requires NoDup(s) && x !in s
    ensures NoDup(s + [x])
  {
    if |s| > 0 {
      AppendNoDup(s[1..], x);
      assert (s + [x])[1..] == s[1..] + [x];
    }
  }

  // The elements after a place are others than those before it.
  lemma {:induction false} SplitNoDup<T>(s: seq<T>, k: nat)
    requires NoDup(s) && k <= |s|
    ensures NoDup(s[k..])
    ensures forall x :: x in s[k..] ==> x !in s[..k]
  {
    if k > 0 {
      SplitNoDup(s[1..], k - 1);
      assert s[1..][k - 1..] == s[k..];
      assert s[..k] == [s[0]] + s[1..][..k - 1];
    } else {
      assert s[0..] == s;
    }
  }

  lemma PrependNoDup<T>(x: T, s: seq<T>)
    requires NoDup(s) && x !in s
    ensures NoDup([x] + s) && Elems([x] + s) == Elems(s) + {x}
  {
    assert ([x] + s)[1..] == s;
  }

  // The elements of a set, in the order of the list.
  function Kept<T(==)>(s: seq<T>, keep: set<T>): seq<T> {
    if |s| == 0 then []
    else if s[0] in keep then [s[0]] + Kept(s[1..], keep)
    else Kept(s[1..], keep)
  }

  lemma {:induction false} KeptAll<T>(s: seq<T>, keep: set<T>)
    requires Elems(s) <= keep
    ensures Kept(s, keep) == s
  {
    if |s| > 0 {
      assert s[0] in Elems(s) && Elems(s[1..]) <= Elems(s);
      KeptAll(s[1..], keep);
    }
  }

  lemma {:induction false} KeptWithout<T>(s: seq<T>, keep: set<T>, x: T)
    ensures Without(Kept(s, keep), x) == Kept(s, keep - {x})
  {
    if |s| > 0 {
      var rest := Kept(s[1..], keep);
      KeptWithout(s[1..], keep, x);
      if s[0] in keep {
        assert Kept(s, keep)[1..] == rest;
      }
    }
  }
}
