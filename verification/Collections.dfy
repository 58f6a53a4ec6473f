/** Lists without repetition and finite sets, counted. */
module Collections {

  predicate Distinct<T(==)>(s: seq<T>) {
    forall i, j | 0 <= i < j < |s| :: s[i] != s[j]
  }

  function Members<T(==)>(s: seq<T>): set<T> {
    set x | x in s
  }

  lemma {:induction false} DistinctLength<T>(s: seq<T>)
    requires Distinct(s)
    ensures |Members(s)| == |s|
  {
    if s == [] {
    } else {
      DistinctLength(s[1..]);
      assert s[0] !in s[1..] && s == [s[0]] + s[1..];
      assert Members(s) == Members(s[1..]) + {s[0]};
    }
  }

  lemma SameMembersSameLength<T>(s: seq<T>, t: seq<T>)
    requires Distinct(s) && Distinct(t) && forall x :: x in s <==> x in t
    ensures |s| == |t|
  {
    DistinctLength(s);
    DistinctLength(t);
    assert Members(s) == Members(t);
  }

  // As many distinct members as the set has are all of them.
  lemma AllOfThem<T>(s: seq<T>, all: set<T>)
    requires Distinct(s) && |s| == |all| && forall i | 0 <= i < |s| :: s[i] in all
    ensures forall x :: x in s <==> x in all
  {
    DistinctLength(s);
    SameSizeSubset(Members(s), all);
    assert forall x :: x in s <==> x in Members(s);
  }

  lemma SameSizeSubset<T>(a: set<T>, b: set<T>)
    requires a <= b && |a| == |b|
    ensures a == b
  {
    assert b == a + (b - a);
  }

  lemma SubsetSize<T>(a: set<T>, b: set<T>)
    requires a <= b
    ensures |a| <= |b|
  {
    assert b == a + (b - a);
  }

  lemma DistinctCons<T>(s: seq<T>)
    requires s != []
    ensures Distinct(s) <==> s[0] !in s[1..] && Distinct(s[1..])
  {
    var rest := s[1..];
    assert forall k | 0 <= k < |rest| :: rest[k] == s[k + 1];
    if Distinct(rest) && s[0] !in rest {
      forall i, j | 0 <= i < j < |s| ensures s[i] != s[j] {
        assert s[j] == rest[j - 1];
      }
    }
  }

  lemma CountCons<T>(s: seq<T>, x: T)
    requires s != []
    ensures multiset(s)[x] == multiset(s[1..])[x] + if x == s[0] then 1 else 0
  {
    assert s == [s[0]] + s[1..];
  }

  // No repetition means that nothing counts twice.
  lemma {:induction false} DistinctIsCount<T>(s: seq<T>)
    ensures Distinct(s) <==> forall x :: multiset(s)[x] <= 1
  {
    if s == [] {
    } else {
      DistinctIsCount(s[1..]);
      DistinctCons(s);
      forall x ensures multiset(s)[x] == multiset(s[1..])[x] + if x == s[0] then 1 else 0 {
        CountCons(s, x);
      }
      if s[0] in s[1..] {
        assert multiset(s[1..])[s[0]] >= 1 && multiset(s)[s[0]] > 1;
      } else {
        assert multiset(s[1..])[s[0]] == 0;
      }
    }
  }
}
