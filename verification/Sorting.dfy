/** Sorting by a given order, and when the sorted arrangement is unique. */
module Sorting {

  predicate SortedBy<T>(leq: (T, T) -> bool, s: seq<T>) {
    forall i, j | 0 <= i < j < |s| :: leq(s[i], s[j])
  }

  ghost predicate Total<T(!new)>(leq: (T, T) -> bool) {
    forall a, b :: leq(a, b) || leq(b, a)
  }

  ghost predicate Transitive<T(!new)>(leq: (T, T) -> bool) {
    forall a, b, c :: leq(a, b) && leq(b, c) ==> leq(a, c)
  }

  function Insert<T(!new)>(leq: (T, T) -> bool, s: seq<T>, x: T): (r: seq<T>)
    requires Total(leq) && Transitive(leq) && SortedBy(leq, s)
    ensures SortedBy(leq, r) && multiset(r) == multiset(s) + multiset{x}
  {
    if s == [] || leq(x, s[0]) then [x] + s
    else
      var rest := Insert(leq, s[1..], x);
      assert s == [s[0]] + s[1..];
      FirstStays(leq, s, rest, x);
      [s[0]] + rest
  }

  lemma FirstStays<T>(leq: (T, T) -> bool, s: seq<T>, rest: seq<T>, x: T)
    requires s != [] && SortedBy(leq, s) && SortedBy(leq, rest) && leq(s[0], x)
    requires multiset(rest) == multiset(s[1..]) + multiset{x}
    ensures SortedBy(leq, [s[0]] + rest)
  {
    forall i | 0 <= i < |rest| ensures leq(s[0], rest[i]) {
      assert rest[i] in multiset(rest);
      assert rest[i] == x || rest[i] in s[1..];
    }
  }

  // Stable: elements that are level keep their order.
  function InsertionSort<T(!new)>(leq: (T, T) -> bool, s: seq<T>): (r: seq<T>)
    requires Total(leq) && Transitive(leq)
    ensures SortedBy(leq, r) && multiset(r) == multiset(s)
  {
    if s == [] then []
    else
      assert s == [s[0]] + s[1..];
      Insert(leq, InsertionSort(leq, s[1..]), s[0])
  }

  // sort.Slice: some arrangement in order; which algorithm finds it does not matter below.
  method SortSlice<T(!new)>(leq: (T, T) -> bool, s: seq<T>) returns (r: seq<T>)
    requires Total(leq) && Transitive(leq)
    ensures SortedBy(leq, r) && multiset(r) == multiset(s)
  {
    r := [];
    for n := 0 to |s|
      invariant SortedBy(leq, r) && multiset(r) == multiset(s[..n])
    {
      r := Insert(leq, r, s[n]);
      assert s[..n + 1] == s[..n] + [s[n]];
    }
    assert s[..|s|] == s;
  }

  // Two arrangements of the same elements agree, if elements that are not apart in the
  // order are the same.
  lemma {:induction false} SortedUnique<T>(leq: (T, T) -> bool, s: seq<T>, t: seq<T>)
    requires SortedBy(leq, s) && SortedBy(leq, t) && multiset(s) == multiset(t)
    requires forall a, b | a in s && b in s && leq(a, b) && leq(b, a) :: a == b
    ensures s == t
  {
    assert |multiset(s)| == |multiset(t)|;
    if s == [] {
    } else {
      FirstAgrees(leq, s, t);
      FirstAndRest(s);
      FirstAndRest(t);
      Cancel(multiset(s[1..]), multiset(t[1..]), s[0]);
      assert forall x | x in s[1..] :: x in s;
      SortedUnique(leq, s[1..], t[1..]);
    }
  }

  lemma FirstAndRest<T>(s: seq<T>)
    requires s != []
    ensures s == [s[0]] + s[1..] && multiset(s) == multiset(s[1..]) + multiset{s[0]}
  {
    assert s == [s[0]] + s[1..];
  }

  lemma FirstAgrees<T>(leq: (T, T) -> bool, s: seq<T>, t: seq<T>)
    requires SortedBy(leq, s) && SortedBy(leq, t) && multiset(s) == multiset(t) && s != [] && t != []
    requires forall a, b | a in s && b in s && leq(a, b) && leq(b, a) :: a == b
    ensures s[0] == t[0]
  {
    assert t[0] in multiset(t) && s[0] in multiset(s);
    assert t[0] in s && s[0] in t;
    var i :| 0 <= i < |s| && s[i] == t[0];
    var j :| 0 <= j < |t| && t[j] == s[0];
    if i != 0 && j != 0 {
      assert leq(s[0], s[i]) && leq(t[0], t[j]);
    }
  }

  lemma SwapKeepsElements<T>(s: seq<T>, i: nat, j: nat)
    requires i < |s| && j < |s|
    ensures multiset(s[i := s[j]][j := s[i]]) == multiset(s)
  {
  }

  function Map<A, B>(f: A -> B, s: seq<A>): (r: seq<B>)
    ensures |r| == |s|
  {
    seq(|s|, i requires 0 <= i < |s| => f(s[i]))
  }

  lemma MapConcat<A, B>(f: A -> B, s: seq<A>, t: seq<A>)
    ensures Map(f, s + t) == Map(f, s) + Map(f, t)
  {
  }

  lemma WithoutOne<T>(s: seq<T>, j: nat)
    requires j < |s|
    ensures multiset(s) == multiset(s[..j] + s[j + 1..]) + multiset{s[j]}
  {
    assert s == s[..j] + [s[j]] + s[j + 1..];
  }

  lemma MapWithoutOne<A, B>(f: A -> B, s: seq<A>, j: nat)
    requires j < |s|
    ensures multiset(Map(f, s)) == multiset(Map(f, s[..j] + s[j + 1..])) + multiset{f(s[j])}
  {
    var m := Map(f, s);
    WithoutOne(m, j);
    assert m[..j] + m[j + 1..] == Map(f, s[..j] + s[j + 1..]);
  }

  lemma Cancel<T>(a: multiset<T>, b: multiset<T>, x: T)
    requires a + multiset{x} == b + multiset{x}
    ensures a == b
  {
    assert a == a + multiset{x} - multiset{x} && b == b + multiset{x} - multiset{x};
  }

  // Mapping rearranges along with its argument.
  lemma {:induction false} MapKeepsRearrangement<A, B>(f: A -> B, s: seq<A>, t: seq<A>)
    requires multiset(s) == multiset(t)
    ensures multiset(Map(f, s)) == multiset(Map(f, t))
  {
    if s == [] {
      assert |multiset(t)| == 0;
    } else {
      assert s[0] in multiset(s);
      var j := PlaceOf(s[0], t);
      var rs, rt := s[..0] + s[1..], t[..j] + t[j + 1..];
      assert multiset(rs) == multiset(rt) by {
        WithoutOne(s, 0);
        WithoutOne(t, j);
        Cancel(multiset(rs), multiset(rt), s[0]);
      }
      MapWithoutOne(f, s, 0);
      MapWithoutOne(f, t, j);
      MapKeepsRearrangement(f, rs, rt);
    }
  }

  lemma PlaceOf<T>(x: T, t: seq<T>) returns (j: nat)
    requires x in multiset(t)
    ensures j < |t| && t[j] == x
  {
    j :| j < |t| && t[j] == x;
  }
}
