/** Prometheus label sets as the metrics registry keys and prints them (internal/metrics/metrics.go). */
module Labels {
  import opened Collections
  import opened Options
  import opened ByteStrings
  import opened Sorting

  const QUOTE: Byte := 34
  const COMMA: Byte := 44
  const EQUALS: Byte := 61
  const BACKSLASH: Byte := 92
  const OPEN: Byte := 123
  const CLOSE: Byte := 125
  const NEWLINE: Byte := 10

  datatype Label = Label(key: Bytes, value: Bytes)

  predicate KeyLeq(a: Label, b: Label) {
    Leq(a.key, b.key)
  }

  predicate Special(c: Byte) {
    c == BACKSLASH || c == QUOTE || c == NEWLINE
  }

  function EscapeByte(c: Byte): Bytes {
    if c == NEWLINE then [BACKSLASH, 110] else if Special(c) then [BACKSLASH, c] else [c]
  }

  function Escape(s: Bytes): Bytes {
    if s == [] then [] else EscapeByte(s[0]) + Escape(s[1..])
  }

  // k="v"
  function RenderLabel(l: Label): Bytes {
    l.key + [EQUALS, QUOTE] + Escape(l.value) + [QUOTE]
  }

  function RenderBody(labels: seq<Label>): Bytes {
    Join(Map(RenderLabel, labels), COMMA)
  }

  function Render(labels: seq<Label>): Bytes {
    if labels == [] then [] else [OPEN] + RenderBody(labels) + [CLOSE]
  }

  // The pairs of an argument list; an odd trailing key is dropped.
  function PairsOf(kv: seq<Bytes>): (r: seq<Label>)
    ensures |r| == |kv| / 2
  {
    if |kv| < 2 then [] else [Label(kv[0], kv[1])] + PairsOf(kv[2..])
  }

  // The arrangements by key: sort.Slice promises no more than one of them.
  ghost predicate Renders(labels: seq<Label>, r: Bytes) {
    exists sorted: seq<Label> :: multiset(sorted) == multiset(labels) && SortedBy(KeyLeq, sorted) && r == Render(sorted)
  }

  // ---------------------------------------------------------------- reading it back

  // Up to the closing quote: the unescaped value and what follows.
  function ReadValue(s: Bytes): Option<(Bytes, Bytes)> {
    if s == [] then None
    else if s[0] == QUOTE then Some(([], s[1..]))
    else if s[0] != BACKSLASH then
      var rest := ReadValue(s[1..]);
      if rest.None? then None else Some(([s[0]] + rest.value.0, rest.value.1))
    else if |s| < 2 || (s[1] != BACKSLASH && s[1] != QUOTE && s[1] != 110) then None
    else
      var rest := ReadValue(s[2..]);
      if rest.None? then None else Some(([if s[1] == 110 then NEWLINE else s[1]] + rest.value.0, rest.value.1))
  }

  function ReadName(s: Bytes): (r: Option<(Bytes, Bytes)>)
    ensures r.Some? ==> |r.value.1| < |s|
  {
    if s == [] then None
    else if s[0] == EQUALS then Some(([], s[1..]))
    else
      var rest := ReadName(s[1..]);
      if rest.None? then None else Some(([s[0]] + rest.value.0, rest.value.1))
  }

  lemma {:induction false} ReadValueShrinks(s: Bytes)
    ensures ReadValue(s).Some? ==> |ReadValue(s).value.1| < |s|
  {
    if s == [] || s[0] == QUOTE {
    } else {
      if s[0] != BACKSLASH {
        ReadValueShrinks(s[1..]);
      } else if |s| >= 2 {
        ReadValueShrinks(s[2..]);
      }
    }
  }

  function ReadLabel(s: Bytes): (r: Option<(Label, Bytes)>)
    ensures r.Some? ==> |r.value.1| < |s|
  {
    var name := ReadName(s);
    if name.None? || name.value.1 == [] || name.value.1[0] != QUOTE then None
    else
      var value := ReadValue(name.value.1[1..]);
      ReadValueShrinks(name.value.1[1..]);
      if value.None? then None else Some((Label(name.value.0, value.value.0), value.value.1))
  }

  function ReadBody(s: Bytes): Option<seq<Label>>
    decreases |s|
  {
    var first := ReadLabel(s);
    if first.None? then None
    else if first.value.1 == [CLOSE] then Some([first.value.0])
    else if first.value.1 == [] || first.value.1[0] != COMMA then None
    else
      var rest := ReadBody(first.value.1[1..]);
      if rest.None? then None else Some([first.value.0] + rest.value)
  }

  function Read(r: Bytes): Option<seq<Label>> {
    if r == [] then Some([]) else if r[0] != OPEN then None else ReadBody(r[1..])
  }

  lemma ByteRoundTrip(c: Byte, tail: Bytes)
    requires ReadValue(tail).Some?
    ensures ReadValue(EscapeByte(c) + tail) == Some(([c] + ReadValue(tail).value.0, ReadValue(tail).value.1))
  {
    var s := EscapeByte(c) + tail;
    if Special(c) {
      assert s[2..] == tail;
    } else {
      assert s[1..] == tail;
    }
  }

  // Unescaping inverts escaping and finds the end of the value.
  lemma {:induction false} ValueRoundTrip(v: Bytes, rest: Bytes)
    ensures ReadValue(Escape(v) + [QUOTE] + rest) == Some((v, rest))
  {
    if v == [] {
      assert ([QUOTE] + rest)[1..] == rest;
    } else {
      var tail := Escape(v[1..]) + [QUOTE] + rest;
      ValueRoundTrip(v[1..], rest);
      ByteRoundTrip(v[0], tail);
      assert Escape(v) + [QUOTE] + rest == EscapeByte(v[0]) + tail;
      assert v == [v[0]] + v[1..];
    }
  }

  lemma {:induction false} NameRoundTrip(name: Bytes, rest: Bytes)
    requires EQUALS !in name
    ensures ReadName(name + [EQUALS] + rest) == Some((name, rest))
  {
    var s := name + [EQUALS] + rest;
    if name == [] {
      assert s[1..] == rest;
    } else {
      NameRoundTrip(name[1..], rest);
      assert s[1..] == name[1..] + [EQUALS] + rest && name == [name[0]] + name[1..];
    }
  }

  lemma LabelRoundTrip(l: Label, rest: Bytes)
    requires EQUALS !in l.key
    ensures ReadLabel(RenderLabel(l) + rest) == Some((l, rest))
  {
    var after := [QUOTE] + (Escape(l.value) + [QUOTE] + rest);
    assert RenderLabel(l) + rest == l.key + [EQUALS] + after;
    NameRoundTrip(l.key, after);
    assert after[1..] == Escape(l.value) + [QUOTE] + rest;
    ValueRoundTrip(l.value, rest);
  }

  // Names without '=': every valid Prometheus label name is one.
  predicate Named(labels: seq<Label>) {
    forall l | l in labels :: EQUALS !in l.key
  }

  lemma {:induction false} BodyRoundTrip(labels: seq<Label>)
    requires labels != [] && Named(labels)
    ensures ReadBody(RenderBody(labels) + [CLOSE]) == Some(labels)
  {
    var parts := Map(RenderLabel, labels);
    if |labels| == 1 {
      LabelRoundTrip(labels[0], [CLOSE]);
      assert labels == [labels[0]] && RenderBody(labels) == RenderLabel(labels[0]);
    } else {
      BodyRoundTrip(labels[1..]);
      assert parts[1..] == Map(RenderLabel, labels[1..]);
      var rest := [COMMA] + RenderBody(labels[1..]) + [CLOSE];
      assert RenderBody(labels) + [CLOSE] == RenderLabel(labels[0]) + rest;
      LabelRoundTrip(labels[0], rest);
      assert rest[1..] == RenderBody(labels[1..]) + [CLOSE];
      assert labels == [labels[0]] + labels[1..];
    }
  }

  lemma RoundTrip(labels: seq<Label>)
    requires Named(labels)
    ensures Read(Render(labels)) == Some(labels)
  {
    if labels != [] {
      BodyRoundTrip(labels);
      assert Render(labels)[1..] == RenderBody(labels) + [CLOSE];
    }
  }

  // ---------------------------------------------------------------- a series per label set

  predicate OneValuePerKey(labels: seq<Label>) {
    forall x, y | x in labels && y in labels && x.key == y.key :: x == y
  }

  // With one value per key and valid names, one label set gives one string whatever the
  // order of the arguments, and two label sets never share a string.
  lemma SameSeriesExactlyWhenSameLabels(a: seq<Label>, b: seq<Label>, ra: Bytes, rb: Bytes)
    requires OneValuePerKey(a) && Named(a) && Named(b)
    requires Renders(a, ra) && Renders(b, rb)
    ensures ra == rb <==> multiset(a) == multiset(b)
  {
    var sa: seq<Label> :| multiset(sa) == multiset(a) && SortedBy(KeyLeq, sa) && ra == Render(sa);
    var sb: seq<Label> :| multiset(sb) == multiset(b) && SortedBy(KeyLeq, sb) && rb == Render(sb);
    SameMembers(sa, a);
    SameMembers(sb, b);
    RoundTrip(sa);
    RoundTrip(sb);
    if multiset(a) == multiset(b) {
      forall x, y | x in sa && y in sa && KeyLeq(x, y) && KeyLeq(y, x) ensures x == y {
        LeqAntisymmetric(x.key, y.key);
      }
      SortedUnique(KeyLeq, sa, sb);
    }
  }

  lemma SameMembers(s: seq<Label>, t: seq<Label>)
    requires multiset(s) == multiset(t)
    ensures forall l :: l in s <==> l in t
  {
    assert forall l :: l in s <==> l in multiset(t);
  }

  lemma ArrangementRenders(labels: seq<Label>, sorted: seq<Label>)
    requires multiset(sorted) == multiset(labels) && SortedBy(KeyLeq, sorted)
    ensures Renders(labels, Render(sorted))
  {
  }

  // ---------------------------------------------------------------- the order of the arguments

  // sort.Slice by key, whatever its algorithm: it compares keys and nothing else, so the keys
  // alone decide which argument ends up where; order(keys)[n] is the one printed n-th.
  type KeySort = seq<Bytes> -> seq<nat>

  predicate Shuffles(p: seq<nat>, n: nat) {
    Distinct(p) && |p| == n && forall i | 0 <= i < n :: p[i] < n
  }

  ghost predicate SortsKeys(order: KeySort) {
    forall keys: seq<Bytes> ::
      && Shuffles(order(keys), |keys|)
      && forall i, j | 0 <= i < j < |keys| :: Leq(keys[order(keys)[i]], keys[order(keys)[j]])
  }

  function Keys(labels: seq<Label>): (keys: seq<Bytes>)
    ensures |keys| == |labels|
  {
    seq(|labels|, i requires 0 <= i < |labels| => labels[i].key)
  }

  function Arranged(p: seq<nat>, labels: seq<Label>): (r: seq<Label>)
    requires Shuffles(p, |labels|)
    ensures |r| == |labels|
  {
    seq(|labels|, i requires 0 <= i < |labels| => labels[p[i]])
  }

  // The string for an argument list.
  ghost function Rendered(order: KeySort, kv: seq<Bytes>): Bytes
    requires SortsKeys(order)
  {
    var labels := PairsOf(kv);
    Render(Arranged(order(Keys(labels)), labels))
  }

  function Upto(n: nat): (s: seq<nat>)
    ensures |s| == n && Distinct(s) && forall i | 0 <= i < n :: s[i] == i
  {
    seq(n, i => i)
  }

  lemma ShuffleIsOnto(p: seq<nat>, n: nat)
    requires Shuffles(p, n)
    ensures forall i :: i in p <==> i in Members(Upto(n))
  {
    DistinctLength(Upto(n));
    forall i | 0 <= i < n ensures p[i] in Members(Upto(n)) {
      assert Upto(n)[p[i]] == p[i];
    }
    AllOfThem(p, Members(Upto(n)));
  }

  lemma ShuffleCounts(p: seq<nat>, n: nat)
    requires Shuffles(p, n)
    ensures multiset(p) == multiset(Upto(n))
  {
    ShuffleIsOnto(p, n);
    DistinctIsCount(p);
    DistinctIsCount(Upto(n));
    forall i ensures multiset(p)[i] == multiset(Upto(n))[i] {
      assert i in p <==> i in Upto(n);
      assert i in multiset(p) <==> i in p;
      assert i in multiset(Upto(n)) <==> i in Upto(n);
    }
  }

  lemma ArrangedKeepsLabels(p: seq<nat>, labels: seq<Label>)
    requires Shuffles(p, |labels|)
    ensures multiset(Arranged(p, labels)) == multiset(labels)
  {
    var at := (i: nat) => if i < |labels| then labels[i] else Label([], []);
    ShuffleCounts(p, |labels|);
    MapKeepsRearrangement(at, p, Upto(|labels|));
    assert Map(at, p) == Arranged(p, labels) && Map(at, Upto(|labels|)) == labels;
  }

  function KeyAt(keys: seq<Bytes>, i: nat): Bytes {
    if i < |keys| then keys[i] else []
  }

  function PositionLeq(keys: seq<Bytes>): (nat, nat) -> bool {
    (i: nat, j: nat) => Leq(KeyAt(keys, i), KeyAt(keys, j))
  }

  lemma PositionLeqIsOrder(keys: seq<Bytes>)
    ensures Total(PositionLeq(keys)) && Transitive(PositionLeq(keys))
  {
    var leq := PositionLeq(keys);
    forall i: nat, j: nat ensures leq(i, j) || leq(j, i) {
      LeqTotal(KeyAt(keys, i), KeyAt(keys, j));
    }
    forall i: nat, j: nat, k: nat | leq(i, j) && leq(j, k) ensures leq(i, k) {
      LeqTransitive(KeyAt(keys, i), KeyAt(keys, j), KeyAt(keys, k));
    }
  }

  // What sort.Slice does to a short list: insertion, so there is such a sort.
  function InsertionOrder(keys: seq<Bytes>): seq<nat> {
    PositionLeqIsOrder(keys);
    InsertionSort(PositionLeq(keys), Upto(|keys|))
  }

  lemma InsertionOrderShuffles(keys: seq<Bytes>)
    ensures Shuffles(InsertionOrder(keys), |keys|)
    ensures SortedBy<nat>(PositionLeq(keys), InsertionOrder(keys))
  {
    var p, n := InsertionOrder(keys), |keys|;
    PositionLeqIsOrder(keys);
    assert multiset(p) == multiset(Upto(n)) && |multiset(p)| == |multiset(Upto(n))|;
    DistinctIsCount(p);
    DistinctIsCount(Upto(n));
    forall i | 0 <= i < n ensures p[i] < n {
      assert p[i] in multiset(p);
      assert p[i] in Upto(n);
    }
  }

  lemma InsertionOrderSorts()
    ensures SortsKeys(InsertionOrder)
  {
    forall keys: seq<Bytes>, i, j | 0 <= i < j < |keys|
      ensures Shuffles(InsertionOrder(keys), |keys|) && Leq(keys[InsertionOrder(keys)[i]], keys[InsertionOrder(keys)[j]])
    {
      InsertionOrderShuffles(keys);
      var p := InsertionOrder(keys);
      assert PositionLeq(keys)(p[i], p[j]);
    }
    forall keys: seq<Bytes> ensures Shuffles(InsertionOrder(keys), |keys|) {
      InsertionOrderShuffles(keys);
    }
  }

  // What the code prints is one of the arrangements by key.
  lemma RenderedRenders(order: KeySort, kv: seq<Bytes>)
    requires SortsKeys(order)
    ensures Renders(PairsOf(kv), Rendered(order, kv))
  {
    var labels := PairsOf(kv);
    var keys := Keys(labels);
    var p := order(keys);
    ArrangedKeepsLabels(p, labels);
    forall i, j | 0 <= i < j < |labels| ensures KeyLeq(Arranged(p, labels)[i], Arranged(p, labels)[j]) {
      assert Leq(keys[p[i]], keys[p[j]]);
    }
    ArrangementRenders(labels, Arranged(p, labels));
  }

  function ArgumentsOf(labels: seq<Label>): seq<Bytes> {
    if labels == [] then [] else [labels[0].key, labels[0].value] + ArgumentsOf(labels[1..])
  }

  lemma {:induction false} ArgumentsReadBack(labels: seq<Label>)
    ensures PairsOf(ArgumentsOf(labels)) == labels
  {
    if labels == [] {
    } else {
      ArgumentsReadBack(labels[1..]);
      assert ArgumentsOf(labels)[2..] == ArgumentsOf(labels[1..]);
      assert labels == [labels[0]] + labels[1..];
    }
  }

  // Every order of the same label arguments gives the string that kv gives.
  ghost predicate OneSeries(order: KeySort, kv: seq<Bytes>)
    requires SortsKeys(order)
  {
    forall kv' | multiset(PairsOf(kv')) == multiset(PairsOf(kv)) :: Rendered(order, kv') == Rendered(order, kv)
  }

  // Two labels that share a key but not a value, exchanged.
  lemma Exchanged(labels: seq<Label>, i: nat, j: nat) returns (swapped: seq<Label>)
    requires Named(labels) && i < |labels| && j < |labels| && labels[i].key == labels[j].key && labels[i] != labels[j]
    ensures multiset(swapped) == multiset(labels) && Keys(swapped) == Keys(labels) && Named(swapped)
    ensures |swapped| == |labels| && swapped[i] != labels[i]
  {
    swapped := labels[i := labels[j]][j := labels[i]];
    SwapKeepsElements(labels, i, j);
    assert forall m | 0 <= m < |swapped| :: swapped[m] in labels;
  }

  // The exchange shows in the string.
  lemma {:induction false} ExchangeShows(order: KeySort, kv: seq<Bytes>, i: nat, j: nat) returns (kv': seq<Bytes>)
    requires SortsKeys(order) && Named(PairsOf(kv)) && i < |PairsOf(kv)| && j < |PairsOf(kv)|
    requires PairsOf(kv)[i].key == PairsOf(kv)[j].key && PairsOf(kv)[i] != PairsOf(kv)[j]
    ensures multiset(PairsOf(kv')) == multiset(PairsOf(kv)) && Rendered(order, kv') != Rendered(order, kv)
  {
    var swapped := Exchanged(PairsOf(kv), i, j);
    kv' := ArgumentsOf(swapped);
    ArgumentsReadBack(swapped);
    ArrangedShows(order(Keys(swapped)), PairsOf(kv), swapped, i);
  }

  // Label lists that differ somewhere still differ when arranged alike, and when printed.
  lemma ArrangedShows(p: seq<nat>, a: seq<Label>, b: seq<Label>, i: nat)
    requires i < |a| == |b| && a[i] != b[i] && Shuffles(p, |a|) && Named(a) && Named(b)
    ensures Render(Arranged(p, a)) != Render(Arranged(p, b))
  {
    ShuffleIsOnto(p, |a|);
    assert Upto(|a|)[i] == i && i in p;
    var n :| 0 <= n < |p| && p[n] == i;
    assert Arranged(p, a)[n] == a[i] && Arranged(p, b)[n] == b[i];
    RoundTrip(Arranged(p, a));
    RoundTrip(Arranged(p, b));
  }

  // The order of the arguments never shows exactly when no key carries two values.
  lemma OneSeriesExactlyWhenOneValuePerKey(order: KeySort, kv: seq<Bytes>)
    requires SortsKeys(order) && Named(PairsOf(kv))
    ensures OneSeries(order, kv) <==> OneValuePerKey(PairsOf(kv))
  {
    var labels := PairsOf(kv);
    if OneValuePerKey(labels) {
      forall kv' | multiset(PairsOf(kv')) == multiset(labels) ensures Rendered(order, kv') == Rendered(order, kv) {
        SameMembers(PairsOf(kv'), labels);
        RenderedRenders(order, kv);
        RenderedRenders(order, kv');
        SameSeriesExactlyWhenSameLabels(labels, PairsOf(kv'), Rendered(order, kv), Rendered(order, kv'));
      }
    } else {
      var x, y :| x in labels && y in labels && x.key == y.key && x != y;
      var i :| 0 <= i < |labels| && labels[i] == x;
      var j :| 0 <= j < |labels| && labels[j] == y;
      var kv' := ExchangeShows(order, kv, i, j);
    }
  }

  // ---------------------------------------------------------------- the code's loops

  lemma {:induction false} NothingToEscape(s: Bytes)
    requires forall c | c in s :: !Special(c)
    ensures Escape(s) == s
  {
    if s == [] {
    } else {
      assert s == [s[0]] + s[1..] && s[0] in s && forall c | c in s[1..] :: c in s;
      NothingToEscape(s[1..]);
    }
  }

  // With the fast path for values that need no escaping.
  method EscapeLabelValue(s: Bytes) returns (r: Bytes)
    ensures r == Escape(s)
  {
    if forall c | c in s :: !Special(c) {
      NothingToEscape(s);
      return s;
    }
    return Escape(s);
  }

  lemma {:induction false} PairAt(kv: seq<Bytes>, i: nat)
    requires 2 * i + 1 < |kv|
    ensures PairsOf(kv)[i] == Label(kv[2 * i], kv[2 * i + 1])
  {
    if i == 0 {
    } else {
      PairAt(kv[2..], i - 1);
    }
  }

  method CollectPairs(kv: seq<Bytes>) returns (pairs: seq<Label>)
    ensures pairs == PairsOf(kv)
  {
    pairs := [];
    for i := 0 to |kv| / 2
      invariant |pairs| == i && forall n | 0 <= n < i :: pairs[n] == PairsOf(kv)[n]
    {
      PairAt(kv, i);
      pairs := pairs + [Label(kv[2 * i], kv[2 * i + 1])];
    }
  }

  method WritePair(l: Label) returns (r: Bytes)
    ensures r == RenderLabel(l)
  {
    var escaped := EscapeLabelValue(l.value);
    r := l.key + [EQUALS, QUOTE] + escaped + [QUOTE];
  }

  method WritePairs(pairs: seq<Label>) returns (r: Bytes)
    requires pairs != []
    ensures r == Render(pairs)
  {
    r := [OPEN];
    for i := 0 to |pairs|
      invariant r == [OPEN] + RenderBody(pairs[..i])
    {
      ghost var before := r;
      if i > 0 {
        r := r + [COMMA];
      }
      var text := WritePair(pairs[i]);
      r := r + text;
      assert r == before + ((if i > 0 then [COMMA] else []) + text);
      RenderBodyAppend(pairs[..i], pairs[i]);
      assert pairs[..i + 1] == pairs[..i] + [pairs[i]];
    }
    assert pairs[..|pairs|] == pairs;
    r := r + [CLOSE];
  }

  method RenderLabels(order: KeySort, kv: seq<Bytes>) returns (r: Bytes)
    requires SortsKeys(order)
    ensures r == Rendered(order, kv) && Renders(PairsOf(kv), r)
  {
    RenderedRenders(order, kv);
    if |kv| / 2 == 0 {
      return [];
    }
    var pairs := CollectPairs(kv);
    pairs := Arranged(order(Keys(pairs)), pairs);
    r := WritePairs(pairs);
  }

  lemma {:induction false} RenderBodyAppend(labels: seq<Label>, l: Label)
    ensures RenderBody(labels + [l]) == RenderBody(labels) + ((if labels != [] then [COMMA] else []) + RenderLabel(l))
  {
    var all := Map(RenderLabel, labels + [l]);
    if labels == [] {
      assert all == [RenderLabel(l)];
    } else {
      RenderBodyAppend(labels[1..], l);
      assert (labels + [l])[1..] == labels[1..] + [l];
      assert all[1..] == Map(RenderLabel, labels[1..] + [l]);
      assert Map(RenderLabel, labels)[1..] == Map(RenderLabel, labels[1..]);
    }
  }

  // ---------------------------------------------------------------- in plain terms

  // Backslash (92), quote (34) and newline (10) become two bytes, all others stay.
  lemma EscapeSpelling(c: Byte, rest: Bytes)
    ensures Escape([c] + rest) ==
      (if c == 92 then [92, 92] else if c == 34 then [92, 34] else if c == 10 then [92, 110] else [c]) + Escape(rest)
  {
    assert ([c] + rest)[1..] == rest;
  }

  // {k="v",k="v"}
  lemma Spelling(l: Label, more: seq<Label>)
    ensures RenderBody([l]) == l.key + [61, 34] + Escape(l.value) + [34]
    ensures more != [] ==> RenderBody([l] + more) == l.key + [61, 34] + Escape(l.value) + [34, 44] + RenderBody(more)
    ensures Render([l] + more) == [123] + RenderBody([l] + more) + [125]
    ensures Render([]) == [] && Escape([]) == []
  {
    var all := Map(RenderLabel, [l] + more);
    assert Map(RenderLabel, [l]) == [RenderLabel(l)];
    assert all[1..] == Map(RenderLabel, more) && all[0] == RenderLabel(l);
    assert [l] + more != [];
    if more != [] {
      assert RenderBody([l] + more) == RenderLabel(l) + [44] + RenderBody(more);
      assert [34] + [44] == [34, 44];
    }
  }
}
