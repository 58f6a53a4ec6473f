/** Go strings as byte sequences: splitting, joining and the byte-wise order. */
module ByteStrings {

  type Byte = x: int | 0 <= x < 256
  type Bytes = seq<Byte>

  // strings.Split: one part more than there are separators.
  function Split(s: Bytes, sep: Byte): (parts: seq<Bytes>)
    ensures parts != []
  {
    if s == [] then [[]]
    else
      var rest := Split(s[1..], sep);
      if s[0] == sep then [[]] + rest else [[s[0]] + rest[0]] + rest[1..]
  }

  // strings.Join with a one-byte separator.
  function Join(parts: seq<Bytes>, sep: Byte): Bytes {
    if parts == [] then []
    else if |parts| == 1 then parts[0]
    else parts[0] + [sep] + Join(parts[1..], sep)
  }

  lemma {:induction false} SplitFirst(part: Bytes, sep: Byte, rest: Bytes)
    requires sep !in part
    ensures Split(part + [sep] + rest, sep) == [part] + Split(rest, sep)
  {
    var s := part + [sep] + rest;
    if part == [] {
      assert s[1..] == rest;
    } else {
      assert s[1..] == part[1..] + [sep] + rest;
      SplitFirst(part[1..], sep, rest);
      assert [s[0]] + part[1..] == part;
    }
  }

  lemma {:induction false} SplitWhole(part: Bytes, sep: Byte)
    requires sep !in part
    ensures Split(part, sep) == [part]
  {
    if part == [] {
    } else {
      SplitWhole(part[1..], sep);
      assert [part[0]] + part[1..] == part;
    }
  }

  // Splitting undoes joining when no part holds the separator.
  lemma {:induction false} SplitJoin(parts: seq<Bytes>, sep: Byte)
    requires parts != [] && forall p | p in parts :: sep !in p
    ensures Split(Join(parts, sep), sep) == parts
  {
    if |parts| == 1 {
      SplitWhole(parts[0], sep);
    } else {
      SplitFirst(parts[0], sep, Join(parts[1..], sep));
      SplitJoin(parts[1..], sep);
    }
  }

  // Joining undoes splitting, always.
  lemma {:induction false} JoinSplit(s: Bytes, sep: Byte)
    ensures Join(Split(s, sep), sep) == s
  {
    if s == [] {
    } else {
      JoinSplit(s[1..], sep);
      var rest := Split(s[1..], sep);
      assert s == [s[0]] + s[1..];
      if s[0] == sep {
        assert ([[]] + rest)[1..] == rest;
      } else if |rest| > 1 {
        assert ([[s[0]] + rest[0]] + rest[1..])[1..] == rest[1..];
      }
    }
  }

  lemma NoSeparatorAfter(a: Bytes, b: Bytes, c: Bytes, d: Bytes, sep: Byte)
    requires a + [sep] + b == c + [sep] + d && sep !in b
    ensures |c| <= |a|
  {
    var s := a + [sep] + b;
    assert forall i | |a| < i < |s| :: s[i] == b[i - |a| - 1];
    assert s == c + [sep] + d && s[|c|] == sep;
  }

  // Where the last separator stands is determined.
  lemma LastSeparator(a: Bytes, b: Bytes, c: Bytes, d: Bytes, sep: Byte)
    requires a + [sep] + b == c + [sep] + d && sep !in b && sep !in d
    ensures a == c && b == d
  {
    var s := a + [sep] + b;
    NoSeparatorAfter(a, b, c, d, sep);
    NoSeparatorAfter(c, d, a, b, sep);
    assert a == s[..|a|] && c == s[..|a|] && b == s[|a| + 1..] && d == s[|a| + 1..];
  }

  // The order of Go's `<` on strings, as "not after".
  predicate Leq(a: Bytes, b: Bytes) {
    a == [] || (b != [] && (a[0] < b[0] || (a[0] == b[0] && Leq(a[1..], b[1..]))))
  }

  lemma {:induction false} LeqTotal(a: Bytes, b: Bytes)
    ensures Leq(a, b) || Leq(b, a)
  {
    if a == [] || b == [] || a[0] != b[0] {
    } else {
      LeqTotal(a[1..], b[1..]);
    }
  }

  lemma {:induction false} LeqAntisymmetric(a: Bytes, b: Bytes)
    requires Leq(a, b) && Leq(b, a)
    ensures a == b
  {
    if a == [] {
    } else {
      LeqAntisymmetric(a[1..], b[1..]);
      assert a == [a[0]] + a[1..] && b == [b[0]] + b[1..];
    }
  }

  lemma {:induction false} LeqTransitive(a: Bytes, b: Bytes, c: Bytes)
    requires Leq(a, b) && Leq(b, c)
    ensures Leq(a, c)
  {
    if a == [] || a[0] != b[0] || b[0] != c[0] {
    } else {
      LeqTransitive(a[1..], b[1..], c[1..]);
    }
  }

  // a comes before b: b goes on where a ends, or the first byte that differs is smaller in a.
  predicate Before(a: Bytes, b: Bytes) {
    exists n | 0 <= n <= |a| && n <= |b| :: Departs(a, b, n)
  }

  predicate Departs(a: Bytes, b: Bytes, n: nat)
    requires n <= |a| && n <= |b|
  {
    a[..n] == b[..n] && n < |b| && (n == |a| || a[n] < b[n])
  }

  lemma SameFirst(a: Bytes, b: Bytes, n: nat)
    requires 0 < n <= |a| && n <= |b| && a[..n] == b[..n]
    ensures a[0] == b[0]
  {
    assert a[..n][0] == b[..n][0];
  }

  lemma BeforeNext(a: Bytes, b: Bytes)
    requires a != [] && b != [] && a[0] == b[0]
    ensures Before(a, b) <==> Before(a[1..], b[1..])
  {
    if Before(a, b) {
      var n :| 0 <= n <= |a| && n <= |b| && Departs(a, b, n);
      assert a[..n][1..] == a[1..][..n - 1] && b[..n][1..] == b[1..][..n - 1];
      assert Departs(a[1..], b[1..], n - 1);
    }
    if Before(a[1..], b[1..]) {
      var n :| 0 <= n <= |a[1..]| && n <= |b[1..]| && Departs(a[1..], b[1..], n);
      assert a[..n + 1] == [a[0]] + a[1..][..n] && b[..n + 1] == [b[0]] + b[1..][..n];
      assert Departs(a, b, n + 1);
    }
  }

  // The order is the lexicographic one.
  lemma {:induction false} LeqIsLexicographic(a: Bytes, b: Bytes)
    ensures Leq(a, b) <==> a == b || Before(a, b)
  {
    if a == [] || b == [] || a[0] != b[0] {
      if Leq(a, b) && a != b {
        assert Departs(a, b, 0);
      }
      if Before(a, b) {
        var n :| 0 <= n <= |a| && n <= |b| && Departs(a, b, n);
        if n > 0 { SameFirst(a, b, n); }
      }
    } else {
      LeqIsLexicographic(a[1..], b[1..]);
      BeforeNext(a, b);
      assert a == [a[0]] + a[1..] && b == [b[0]] + b[1..];
    }
  }
}
