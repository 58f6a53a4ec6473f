/**
 The SigV4 canonical query string and path (blob/s3/s3.go): names and values are encoded
 first and the pairs then sorted by their encoded bytes.
 */
module CanonicalQueries {
  import opened Options
  import opened ByteStrings
  import opened Sorting
  import Percent

  const AMP: Byte := 38
  const EQUALS: Byte := 61
  const SLASH: Byte := 47

  datatype Pair = Pair(name: Bytes, value: Bytes)

  // url.Values, whose iteration order is unspecified.
  type Values = map<Bytes, seq<Bytes>>

  function EncodePair(p: Pair): Pair {
    Pair(Percent.Encode(p.name), Percent.Encode(p.value))
  }

  predicate PairLeq(a: Pair, b: Pair) {
    if a.name != b.name then Leq(a.name, b.name) else Leq(a.value, b.value)
  }

  function RenderPair(p: Pair): Bytes {
    p.name + [EQUALS] + p.value
  }

  function Render(pairs: seq<Pair>): Bytes {
    Join(Map(RenderPair, pairs), AMP)
  }

  // How often q gives this value to this name.
  function PairCount(q: Values, name: Bytes, value: Bytes): nat {
    if name in q then multiset(q[name])[value] else 0
  }

  ghost predicate SamePairs(q1: Values, q2: Values) {
    forall name, value :: PairCount(q1, name, value) == PairCount(q2, name, value)
  }

  // The pairs of a url.Values, counted.
  ghost predicate Lists(q: Values, raw: multiset<Pair>) {
    forall name, value :: raw[Pair(name, value)] == PairCount(q, name, value)
  }

  // r is the encoded pairs of q, all of them, in the order of their encoded bytes.
  ghost predicate Canonical(q: Values, r: Bytes) {
    exists raw: seq<Pair> ::
      Lists(q, multiset(raw)) && SortedBy(PairLeq, Map(EncodePair, raw)) && r == Render(Map(EncodePair, raw))
  }

  lemma PairLeqIsOrder()
    ensures Total(PairLeq) && Transitive(PairLeq)
  {
    forall a: Pair, b: Pair ensures PairLeq(a, b) || PairLeq(b, a) {
      LeqTotal(a.name, b.name);
      LeqTotal(a.value, b.value);
    }
    forall a: Pair, b: Pair, c: Pair | PairLeq(a, b) && PairLeq(b, c) ensures PairLeq(a, c) {
      if a.name != b.name || b.name != c.name {
        if a.name == c.name { LeqAntisymmetric(a.name, b.name); }
        if a.name != b.name && b.name != c.name { LeqTransitive(a.name, b.name, c.name); }
      } else {
        LeqTransitive(a.value, b.value, c.value);
      }
    }
  }

  // The string is a function of the pairs: neither the iteration order of the map nor the
  // order of a name's values can show.
  lemma SamePairsSameString(q1: Values, q2: Values, r1: Bytes, r2: Bytes)
    requires Canonical(q1, r1) && Canonical(q2, r2) && SamePairs(q1, q2)
    ensures r1 == r2
  {
    var a: seq<Pair> :| Lists(q1, multiset(a)) && SortedBy(PairLeq, Map(EncodePair, a)) && r1 == Render(Map(EncodePair, a));
    var b: seq<Pair> :| Lists(q2, multiset(b)) && SortedBy(PairLeq, Map(EncodePair, b)) && r2 == Render(Map(EncodePair, b));
    SameCountsSameElements(q1, q2, multiset(a), multiset(b));
    MapKeepsRearrangement(EncodePair, a, b);
    forall x: Pair, y: Pair | PairLeq(x, y) && PairLeq(y, x) ensures x == y {
      if x.name != y.name { LeqAntisymmetric(x.name, y.name); } else { LeqAntisymmetric(x.value, y.value); }
    }
    SortedUnique(PairLeq, Map(EncodePair, a), Map(EncodePair, b));
  }

  lemma SameCountsSameElements(q1: Values, q2: Values, a: multiset<Pair>, b: multiset<Pair>)
    requires Lists(q1, a) && Lists(q2, b)
    ensures SamePairs(q1, q2) <==> a == b
  {
    if SamePairs(q1, q2) {
      forall p ensures a[p] == b[p] {
        assert p == Pair(p.name, p.value) && PairCount(q1, p.name, p.value) == PairCount(q2, p.name, p.value);
      }
    } else {
      var name, value :| PairCount(q1, name, value) != PairCount(q2, name, value);
      assert a[Pair(name, value)] != b[Pair(name, value)];
    }
  }

  // ---------------------------------------------------------------- reading it back

  function DecodePair(part: Bytes): Option<Pair> {
    var sides := Split(part, EQUALS);
    if |sides| != 2 then None
    else
      var name, value := Percent.Decode(sides[0]), Percent.Decode(sides[1]);
      if name.None? || value.None? then None else Some(Pair(name.value, value.value))
  }

  function DecodeParts(parts: seq<Bytes>): Option<seq<Pair>> {
    if parts == [] then Some([])
    else
      var first, rest := DecodePair(parts[0]), DecodeParts(parts[1..]);
      if first.None? || rest.None? then None else Some([first.value] + rest.value)
  }

  function DecodeQuery(r: Bytes): Option<seq<Pair>> {
    if r == [] then Some([]) else DecodeParts(Split(r, AMP))
  }

  // The encodings hold neither separator, so both survive the split.
  lemma EncodedPairSplits(e: Pair)
    requires forall c | c in e.name :: Percent.Unreserved(c) || c == Percent.PERCENT
    requires forall c | c in e.value :: Percent.Unreserved(c) || c == Percent.PERCENT
    ensures Split(RenderPair(e), EQUALS) == [e.name, e.value] && AMP !in RenderPair(e) && RenderPair(e) != []
  {
    assert EQUALS !in e.name && EQUALS !in e.value;
    SplitFirst(e.name, EQUALS, e.value);
    SplitWhole(e.value, EQUALS);
  }

  lemma PairRoundTrip(p: Pair)
    ensures DecodePair(RenderPair(EncodePair(p))) == Some(p)
    ensures AMP !in RenderPair(EncodePair(p)) && RenderPair(EncodePair(p)) != []
  {
    Percent.EncodeAlphabet(p.name);
    Percent.EncodeAlphabet(p.value);
    EncodedPairSplits(EncodePair(p));
    Percent.RoundTrip(p.name);
    Percent.RoundTrip(p.value);
  }

  lemma {:induction false} PartsRoundTrip(raw: seq<Pair>)
    ensures DecodeParts(Map(RenderPair, Map(EncodePair, raw))) == Some(raw)
    ensures forall part | part in Map(RenderPair, Map(EncodePair, raw)) :: AMP !in part
  {
    var parts := Map(RenderPair, Map(EncodePair, raw));
    if raw == [] {
    } else {
      var rest := Map(RenderPair, Map(EncodePair, raw[1..]));
      PairRoundTrip(raw[0]);
      PartsRoundTrip(raw[1..]);
      assert parts[1..] == rest && parts[0] == RenderPair(EncodePair(raw[0]));
      assert forall part | part in parts :: part == parts[0] || part in rest;
      assert raw == [raw[0]] + raw[1..];
    }
  }

  lemma RenderRoundTrip(raw: seq<Pair>)
    ensures DecodeQuery(Render(Map(EncodePair, raw))) == Some(raw)
  {
    var parts := Map(RenderPair, Map(EncodePair, raw));
    PartsRoundTrip(raw);
    if raw != [] {
      PairRoundTrip(raw[0]);
      SplitJoin(parts, AMP);
      assert Split([], AMP) == [[]];
      assert parts[0] != [];
    }
  }

  // A canonical string decodes to exactly the pairs of q, in the order of their encodings.
  lemma CanonicalDecodes(q: Values, r: Bytes)
    requires Canonical(q, r)
    ensures DecodeQuery(r).Some?
    ensures Lists(q, multiset(DecodeQuery(r).value)) && SortedBy(PairLeq, Map(EncodePair, DecodeQuery(r).value))
  {
    var raw: seq<Pair> :| Lists(q, multiset(raw)) && SortedBy(PairLeq, Map(EncodePair, raw)) && r == Render(Map(EncodePair, raw));
    RenderRoundTrip(raw);
  }

  // Two canonical strings are equal exactly when the pairs behind them are.
  lemma CanonicalIsUnique(q1: Values, q2: Values, r1: Bytes, r2: Bytes)
    requires Canonical(q1, r1) && Canonical(q2, r2)
    ensures r1 == r2 <==> SamePairs(q1, q2)
  {
    if r1 == r2 {
      CanonicalDecodes(q1, r1);
      CanonicalDecodes(q2, r2);
      var raw := multiset(DecodeQuery(r1).value);
      SameCountsSameElements(q1, q2, raw, raw);
    } else if SamePairs(q1, q2) {
      SamePairsSameString(q1, q2, r1, r2);
    }
  }

  // ---------------------------------------------------------------- the code's loops

  method UriEncode(s: Bytes) returns (r: Bytes)
    ensures r == Percent.Encode(s)
  {
    r := [];
    for i := 0 to |s|
      invariant r == Percent.Encode(s[..i])
    {
      Percent.EncodeNext(s, i);
      var c := s[i];
      if Percent.Unreserved(c) {
        r := r + [c];
      } else {
        r := r + [Percent.PERCENT, Percent.HexDigit(c / 16), Percent.HexDigit(c % 16)];
      }
    }
    assert s[..|s|] == s;
  }

  // The pairs of the keys that have been visited.
  ghost predicate ListsVisited(q: Values, left: set<Bytes>, raw: multiset<Pair>) {
    forall name, value :: raw[Pair(name, value)] == if name in q && name !in left then multiset(q[name])[value] else 0
  }

  function KeyPairs(k: Bytes, vals: seq<Bytes>): seq<Pair> {
    Map(v => Pair(k, v), vals)
  }

  lemma {:induction false} KeyPairsCount(k: Bytes, vals: seq<Bytes>, name: Bytes, value: Bytes)
    ensures multiset(KeyPairs(k, vals))[Pair(name, value)] == if name == k then multiset(vals)[value] else 0
  {
    if vals == [] {
    } else {
      KeyPairsCount(k, vals[1..], name, value);
      assert vals == [vals[0]] + vals[1..] && KeyPairs(k, vals) == [Pair(k, vals[0])] + KeyPairs(k, vals[1..]);
    }
  }

  lemma VisitKey(q: Values, left: set<Bytes>, raw: seq<Pair>, k: Bytes)
    requires left <= q.Keys && k in left && ListsVisited(q, left, multiset(raw))
    ensures ListsVisited(q, left - {k}, multiset(raw + KeyPairs(k, q[k])))
  {
    forall name, value
      ensures multiset(raw + KeyPairs(k, q[k]))[Pair(name, value)] ==
        if name in q && name !in left - {k} then multiset(q[name])[value] else 0
    {
      KeyPairsCount(k, q[k], name, value);
    }
  }

  method CollectValues(k: Bytes, vals: seq<Bytes>) returns (pairs: seq<Pair>)
    ensures pairs == Map(EncodePair, KeyPairs(k, vals))
  {
    var ek := UriEncode(k);
    pairs := [];
    for i := 0 to |vals|
      invariant |pairs| == i && forall n | 0 <= n < i :: pairs[n] == EncodePair(Pair(k, vals[n]))
    {
      var ev := UriEncode(vals[i]);
      pairs := pairs + [Pair(ek, ev)];
    }
  }

  // Keys in any order; `raw` remembers what the encoded pairs stand for.
  method CollectPairs(q: Values) returns (pairs: seq<Pair>, ghost raw: seq<Pair>)
    ensures pairs == Map(EncodePair, raw) && Lists(q, multiset(raw))
  {
    pairs, raw := [], [];
    var left := q.Keys;
    while left != {}
      invariant left <= q.Keys && pairs == Map(EncodePair, raw) && ListsVisited(q, left, multiset(raw))
      decreases left
    {
      var k :| k in left;
      var more := CollectValues(k, q[k]);
      MapConcat(EncodePair, raw, KeyPairs(k, q[k]));
      VisitKey(q, left, raw, k);
      pairs, raw, left := pairs + more, raw + KeyPairs(k, q[k]), left - {k};
    }
  }

  method CanonicalQuery(q: Values) returns (r: Bytes)
    ensures Canonical(q, r)
  {
    if |q| == 0 {
      assert Lists(q, multiset([])) && Map(EncodePair, []) == [];
      return [];
    }
    var pairs, raw := CollectPairs(q);
    PairLeqIsOrder();
    pairs := SortSlice(PairLeq, pairs);
    ghost var order := RawOrder(raw, pairs);
    var parts := [];
    for i := 0 to |pairs|
      invariant |parts| == i && forall n | 0 <= n < i :: parts[n] == RenderPair(pairs[n])
    {
      parts := parts + [pairs[i].name + [EQUALS] + pairs[i].value];
    }
    assert parts == Map(RenderPair, pairs);
    r := Join(parts, AMP);
    assert Lists(q, multiset(order)) && SortedBy(PairLeq, Map(EncodePair, order)) && r == Render(Map(EncodePair, order));
  }

  // Sorting the encoded pairs sorts the pairs they stand for.
  lemma RawOrder(raw: seq<Pair>, sorted: seq<Pair>) returns (order: seq<Pair>)
    requires multiset(sorted) == multiset(Map(EncodePair, raw))
    ensures multiset(order) == multiset(raw) && Map(EncodePair, order) == sorted
  {
    var encoded := Map(EncodePair, raw);
    var back := (p: Pair) => Pair(Percent.Decode(p.name).GetOr([]), Percent.Decode(p.value).GetOr([]));
    order := Map(back, sorted);
    MapKeepsRearrangement(back, sorted, encoded);
    forall p: Pair ensures back(EncodePair(p)) == p {
      Percent.RoundTrip(p.name);
      Percent.RoundTrip(p.value);
    }
    assert Map(back, encoded) == raw;
    forall i | 0 <= i < |sorted| ensures EncodePair(order[i]) == sorted[i] {
      assert sorted[i] in multiset(sorted);
      assert sorted[i] in encoded;
    }
  }

  // ---------------------------------------------------------------- the path

  // uriEncodePath: the segments between slashes, each encoded.
  method UriEncodePath(p: Bytes) returns (r: Bytes)
    ensures r == Join(Map(Percent.Encode, Split(p, 47)), 47)
  {
    var segments := Split(p, SLASH);
    var encoded := [];
    for i := 0 to |segments|
      invariant |encoded| == i && forall n | 0 <= n < i :: encoded[n] == Percent.Encode(segments[n])
    {
      var e := UriEncode(segments[i]);
      encoded := encoded + [e];
    }
    assert encoded == Map(Percent.Encode, segments);
    r := Join(encoded, SLASH);
  }

  // The encoded path has the same segments, and each decodes to the original.
  lemma PathRoundTrip(p: Bytes)
    ensures var r := Split(Join(Map(Percent.Encode, Split(p, 47)), 47), 47);
      && |r| == |Split(p, 47)|
      && forall i | 0 <= i < |r| :: r[i] == Percent.Encode(Split(p, 47)[i]) && Percent.Decode(r[i]) == Some(Split(p, 47)[i])
  {
    var segments := Split(p, SLASH);
    var encoded := Map(Percent.Encode, segments);
    forall i | 0 <= i < |segments| ensures SLASH !in encoded[i] && Percent.Decode(encoded[i]) == Some(segments[i]) {
      Percent.EncodeAlphabet(segments[i]);
      Percent.RoundTrip(segments[i]);
    }
    SplitJoin(encoded, SLASH);
  }

  // ---------------------------------------------------------------- in plain terms

  // name=value, '=' being byte 61, with '&', byte 38, between two pairs.
  lemma Spelling(p: Pair, more: seq<Pair>)
    ensures Render([p]) == p.name + [61] + p.value
    ensures more != [] ==> Render([p] + more) == p.name + [61] + p.value + [38] + Render(more)
  {
    var all := Map(RenderPair, [p] + more);
    assert Map(RenderPair, [p]) == [RenderPair(p)];
    assert all[1..] == Map(RenderPair, more) && all[0] == RenderPair(p);
  }

  // The pairs stand in the byte order of their encoded names, and of their encoded values
  // where the names are equal.
  lemma CanonicalIsSorted(q: Values, r: Bytes, i: nat, j: nat)
    requires Canonical(q, r) && DecodeQuery(r).Some? && i < j < |DecodeQuery(r).value|
    ensures var a, b := DecodeQuery(r).value[i], DecodeQuery(r).value[j];
      var na, nb, va, vb := Percent.Encode(a.name), Percent.Encode(b.name), Percent.Encode(a.value), Percent.Encode(b.value);
      Before(na, nb) || (na == nb && (va == vb || Before(va, vb)))
  {
    CanonicalDecodes(q, r);
    var pairs := DecodeQuery(r).value;
    var a, b := EncodePair(pairs[i]), EncodePair(pairs[j]);
    assert Map(EncodePair, pairs)[i] == a && Map(EncodePair, pairs)[j] == b;
    LeqIsLexicographic(a.name, b.name);
    LeqIsLexicographic(a.value, b.value);
  }
}
