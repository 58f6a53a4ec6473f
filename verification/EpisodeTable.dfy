/** The episodes table in place: listing, renumbering, and the move handler on top of them. */
module EpisodeTables {
  import opened Collections
  import opened Options
  import opened Sorting
  import opened EpisodeOrder

  // Sorting rows keeps a list of distinct ids one.
  lemma RearrangedIds(a: seq<Episode>, b: seq<Episode>)
    requires multiset(a) == multiset(b) && Distinct(Ids(a))
    ensures Distinct(Ids(b)) && forall id :: id in Ids(b) <==> id in Ids(a)
  {
    var idOf := (e: Episode) => e.id;
    MapKeepsRearrangement(idOf, a, b);
    assert Ids(a) == Map(idOf, a) && Ids(b) == Map(idOf, b);
    DistinctIsCount(Ids(a));
    DistinctIsCount(Ids(b));
    assert forall id :: id in Ids(b) <==> id in multiset(Ids(b));
  }

  function NoLimit(f: Filter): Filter {
    f.(limit := 0)
  }

  // All wanted rows, sorted.
  lemma WholeSelection(rows: Rows, f: Filter, eps: seq<Episode>, out: seq<Episode>)
    requires Distinct(Ids(eps)) && forall id :: id in Ids(eps) <==> id in WantedIds(rows, f)
    requires forall e | e in eps :: e.id in rows && e == rows[e.id]
    requires SortedBy(ListedBefore, out) && multiset(out) == multiset(eps)
    ensures IsSelection(rows, NoLimit(f), out) && |out| == |WantedIds(rows, f)|
  {
    RearrangedIds(eps, out);
    DistinctLength(Ids(out));
    assert WantedIds(rows, NoLimit(f)) == WantedIds(rows, f);
    assert Members(Ids(out)) == WantedIds(rows, f);
    forall i | 0 <= i < |out| ensures out[i].id in WantedIds(rows, f) && out[i] == rows[out[i].id] {
      assert out[i] in multiset(out) && out[i] in eps;
      assert Ids(out)[i] == out[i].id;
    }
  }

  // What a prefix leaves out comes after it.
  lemma LeftOutComesLater(rows: Rows, out: seq<Episode>, n: nat, i: nat, id: EpisodeId)
    requires SortedBy(ListedBefore, out) && i < n <= |out| && id in Ids(out) && id !in Ids(out)[..n]
    requires forall k | 0 <= k < |out| :: out[k].id in rows && out[k] == rows[out[k].id]
    ensures id in rows && ListedBefore(out[i], rows[id])
  {
    assert forall m | 0 <= m < n :: Ids(out)[m] == Ids(out)[..n][m];
    var k := IndexOf(Ids(out), id);
    assert out[k].id == id;
  }

  // LIMIT keeps a prefix.
  lemma FirstOfSelection(rows: Rows, f: Filter, out: seq<Episode>)
    requires IsSelection(rows, NoLimit(f), out) && 0 < f.limit < |out| && |out| == |WantedIds(rows, f)|
    ensures IsSelection(rows, f, out[..f.limit])
  {
    var first := out[..f.limit];
    assert WantedIds(rows, NoLimit(f)) == WantedIds(rows, f);
    assert Ids(first) == Ids(out)[..f.limit];
    AllOfThem(Ids(out), WantedIds(rows, f)) by {
      assert forall i | 0 <= i < |out| :: Ids(out)[i] == out[i].id;
    }
    forall i, id | 0 <= i < |first| && id in WantedIds(rows, f) && id !in Ids(first)
      ensures ListedBefore(first[i], rows[id])
    {
      LeftOutComesLater(rows, out, f.limit, i, id);
    }
  }

  // Position n for the n-th id; a new updated_at only where the position changes; all other
  // rows and fields as they were.
  ghost predicate Repositioned(before: Rows, ids: seq<EpisodeId>, updatedAt: int, after: Rows) {
    && after.Keys == before.Keys
    && (forall id | id in before && id !in ids :: after[id] == before[id])
    && (forall n | 0 <= n < |ids| :: ids[n] in before && RowAt(before[ids[n]], n, updatedAt, after[ids[n]]))
  }

  predicate RowAt(was: Episode, n: int, updatedAt: int, row: Episode) {
    && row.position == n && row.updatedAt == (if was.position == n then was.updatedAt else updatedAt)
    && row.id == was.id && row.channel == was.channel && row.published == was.published
    && row.publishedAt == was.publishedAt && row.createdAt == was.createdAt
  }

  // By position, then the newest publication or else creation first, then the newest creation.
  predicate InListOrder(a: Episode, b: Episode) {
    && a.position <= b.position
    && (a.position == b.position ==>
          && Recency(a) >= Recency(b)
          && (Recency(a) == Recency(b) ==> a.createdAt >= b.createdAt))
  }

  function Recency(e: Episode): int {
    match e.publishedAt
    case Some(t) => t
    case None => e.createdAt
  }

  predicate Asked(f: Filter, e: Episode) {
    (f.channel == None || f.channel == Some(e.channel)) && (!f.publishedOnly || e.published)
  }

  // Rows that were asked for, each once, in list order, as many as the limit allows, and
  // nothing left out that belongs before one of them.
  ghost predicate Answers(rows: Rows, f: Filter, out: seq<Episode>) {
    && (forall i, j | 0 <= i < j < |out| :: out[i].id != out[j].id && InListOrder(out[i], out[j]))
    && (forall i | 0 <= i < |out| :: out[i].id in rows && rows[out[i].id] == out[i] && Asked(f, out[i]))
    && (f.limit > 0 ==> |out| <= f.limit)
    && (forall id | LeftOut(rows, f, out, id) :: f.limit > 0 && |out| == f.limit && ComesAfter(out, rows[id]))
  }

  predicate LeftOut(rows: Rows, f: Filter, out: seq<Episode>, id: EpisodeId) {
    id in rows && Asked(f, rows[id]) && forall i | 0 <= i < |out| :: out[i].id != id
  }

  predicate ComesAfter(out: seq<Episode>, e: Episode) {
    forall i | 0 <= i < |out| :: InListOrder(out[i], e)
  }

  lemma LeftOutIsLater(rows: Rows, f: Filter, out: seq<Episode>, id: EpisodeId)
    requires IsSelection(rows, f, out) && LeftOut(rows, f, out, id)
    ensures f.limit > 0 && |out| == f.limit && ComesAfter(out, rows[id])
  {
    var ids, wanted := Ids(out), WantedIds(rows, f);
    assert id in wanted && id !in ids;
    if |out| == |wanted| {
      AllOfThem(ids, wanted);
    }
    forall i | 0 <= i < |out| ensures InListOrder(out[i], rows[id]) {
      assert ListedBefore(out[i], rows[id]);
    }
  }

  lemma SelectionInOrder(rows: Rows, f: Filter, out: seq<Episode>, i: nat, j: nat)
    requires IsSelection(rows, f, out) && i < j < |out|
    ensures out[i].id != out[j].id && InListOrder(out[i], out[j])
  {
    assert Ids(out)[i] != Ids(out)[j] && ListedBefore(out[i], out[j]);
  }

  lemma SelectionAnswers(rows: Rows, f: Filter, out: seq<Episode>)
    requires IsSelection(rows, f, out)
    ensures Answers(rows, f, out)
  {
    forall id | LeftOut(rows, f, out, id) ensures f.limit > 0 && |out| == f.limit && ComesAfter(out, rows[id]) {
      LeftOutIsLater(rows, f, out, id);
    }
    forall i, j | 0 <= i < j < |out| ensures out[i].id != out[j].id && InListOrder(out[i], out[j]) {
      SelectionInOrder(rows, f, out, i, j);
    }
  }

  lemma ListingAnswers(rows: Rows, channel: ChannelId, out: seq<Episode>)
    requires IsListing(rows, channel, out)
    ensures Answers(rows, Filter(Some(channel), false, 0), out)
  {
    var f := Filter(Some(channel), false, 0);
    assert WantedIds(rows, f) == ChannelIds(rows, channel);
    assert Members(Ids(out)) == WantedIds(rows, f);
    DistinctLength(Ids(out));
    forall i | 0 <= i < |out| ensures out[i].id in WantedIds(rows, f) {
      assert Ids(out)[i] in Ids(out);
    }
    SelectionAnswers(rows, f, out);
  }

  lemma RenumberedRepositions(before: Rows, ids: seq<EpisodeId>, updatedAt: int, after: Rows)
    requires Renumbered(before, ids, updatedAt, after) && forall n | 0 <= n < |ids| :: ids[n] in before
    ensures Repositioned(before, ids, updatedAt, after)
  {
  }

  // Swapped with its neighbour below or above, every other row of the list at its old index;
  // nothing happens at the edge or when the list does not show it.
  ghost predicate MovedByOne(before: Rows, seen: seq<Episode>, id: EpisodeId, dir: Direction, after: Rows) {
    && ((forall i | 0 <= i < |seen| :: seen[i].id != id) ==> after == before)
    && forall i | 0 <= i < |seen| && seen[i].id == id ::
         var j := if dir == Down then i + 1 else i - 1;
         if 0 <= j < |seen|
         then forall n | 0 <= n < |seen| ::
                seen[n].id in after && after[seen[n].id].position == Exchanged(i, j, n)
         else after == before
  }

  // Where a row of the list goes: i and j change places.
  function Exchanged(i: int, j: int, n: int): int {
    if n == i then j else if n == j then i else n
  }

  lemma SwapRepositions(rows: Rows, ids: seq<EpisodeId>, i: nat, j: nat, updatedAt: int, rows': Rows, n: nat)
    requires i < |ids| && j < |ids| && n < |ids| && ids[n] in rows
    requires Renumbered(rows, ids[i := ids[j]][j := ids[i]], updatedAt, rows')
    ensures ids[n] in rows' && rows'[ids[n]].position == Exchanged(i, j, n)
  {
    var more := ids[i := ids[j]][j := ids[i]];
    assert more[Exchanged(i, j, n)] == ids[n];
  }

  lemma PressMoves(rows: Rows, channel: ChannelId, id: EpisodeId, dir: Direction, updatedAt: int, seen: seq<Episode>, rows': Rows)
    requires Presses(rows, channel, id, dir, updatedAt, seen, rows')
    ensures MovedByOne(rows, seen, id, dir, rows')
  {
    var ids := Ids(seen);
    assert forall n | 0 <= n < |seen| :: ids[n] == seen[n].id;
    if i :| 0 <= i < |seen| && seen[i].id == id {
      IndexOfDistinct(ids, i);
      assert forall k | 0 <= k < |seen| && seen[k].id == id :: k == i;
      var j := if dir == Down then i + 1 else i - 1;
      if 0 <= j < |seen| {
        forall n | 0 <= n < |seen| ensures ids[n] in rows' && rows'[ids[n]].position == Exchanged(i, j, n) {
          SwapRepositions(rows, ids, i, j, updatedAt, rows', n);
        }
      }
    }
  }

  class EpisodeTable {
    var rows: Rows

    constructor ()
      ensures rows == map[]
    {
      rows := map[];
    }

    method ReorderEpisodes(channel: ChannelId, ids: seq<EpisodeId>, updatedAt: int) returns (ok: bool)
      requires Keyed(rows)
      modifies this
      ensures Keyed(rows)
      ensures ok <==> IsPermutation(old(rows), channel, ids)
      ensures if ok then Renumbered(old(rows), ids, updatedAt, rows) else rows == old(rows)
      ensures ok <==>
        && (forall i, j | 0 <= i < j < |ids| :: ids[i] != ids[j])
        && (forall id :: id in ids <==> id in old(rows) && old(rows)[id].channel == channel)
      ensures ok ==> Repositioned(old(rows), ids, updatedAt, rows)
    {
      assert forall id :: id in ids <==> id in Members(ids);
      ok := IsExactPermutation(channel, ids);
      if !ok {
        return;
      }
      ghost var before := rows;
      for n := 0 to |ids|
        invariant rows.Keys == before.Keys && Keyed(rows)
        invariant Renumbered(before, ids[..n], updatedAt, rows)
      {
        assert ids[n] in Members(ids);
        RenumberOne(before, ids, n, updatedAt, rows);
        if ids[n] in rows && rows[ids[n]].channel == channel && rows[ids[n]].position != n {
          rows := rows[ids[n] := rows[ids[n]].(position := n, updatedAt := updatedAt)];
        }
      }
      assert ids[..|ids|] == ids;
      assert forall n | 0 <= n < |ids| :: ids[n] in Members(ids);
      RenumberedRepositions(before, ids, updatedAt, rows);
    }

    // The checks before any row is touched.
    method IsExactPermutation(channel: ChannelId, ids: seq<EpisodeId>) returns (ok: bool)
      ensures ok <==> IsPermutation(rows, channel, ids)
    {
      var current := ChannelIds(rows, channel);
      if |ids| != |current| {
        if Distinct(ids) { DistinctLength(ids); }
        return false;
      }
      var seen := {};
      for n := 0 to |ids|
        invariant seen == Members(ids[..n]) && Distinct(ids[..n]) && seen <= current
      {
        if ids[n] !in current {
          assert ids[n] in Members(ids);
          return false;
        }
        if ids[n] in seen {
          return false;
        }
        assert ids[..n + 1] == ids[..n] + [ids[n]];
        seen := seen + {ids[n]};
      }
      assert ids[..|ids|] == ids;
      DistinctLength(ids);
      SameSizeSubset(seen, current);
      return true;
    }

    method ListEpisodes(f: Filter) returns (out: seq<Episode>)
      requires Keyed(rows)
      ensures IsSelection(rows, f, out) && Answers(rows, f, out)
    {
      var eps: seq<Episode> := [];
      var wanted := WantedIds(rows, f);
      var left := wanted;
      while left != {}
        invariant left <= wanted
        invariant Distinct(Ids(eps)) && forall id :: id in Ids(eps) <==> id in wanted - left
        invariant forall e | e in eps :: e.id in rows && e == rows[e.id]
        decreases left
      {
        var id :| id in left;
        assert id !in Ids(eps);
        assert Ids(eps + [rows[id]]) == Ids(eps) + [id];
        eps := eps + [rows[id]];
        left := left - {id};
      }
      out := SortSlice(ListedBefore, eps);
      WholeSelection(rows, f, eps, out);
      if 0 < f.limit < |out| {
        FirstOfSelection(rows, f, out);
        out := out[..f.limit];
      }
      SelectionAnswers(rows, f, out);
    }

    method ListChannel(channel: ChannelId) returns (out: seq<Episode>)
      requires Keyed(rows)
      ensures IsListing(rows, channel, out)
    {
      out := ListEpisodes(Filter(Some(channel), false, 0));
      ChannelSelectionIsListing(rows, channel, out);
    }

    // handleEpisodeMove; a snapshot that went stale is refused by ReorderEpisodes.
    method MoveEpisode(channel: ChannelId, id: EpisodeId, dir: Direction, updatedAt: int) returns (ghost seen: seq<Episode>)
      requires Keyed(rows)
      modifies this
      ensures Keyed(rows)
      ensures Presses(old(rows), channel, id, dir, updatedAt, seen, rows)
      ensures Answers(old(rows), Filter(Some(channel), false, 0), seen)
      ensures MovedByOne(old(rows), seen, id, dir, rows)
    {
      seen := Press(channel, id, dir, updatedAt);
      ListingAnswers(old(rows), channel, seen);
      PressMoves(old(rows), channel, id, dir, updatedAt, seen, rows);
    }

    method Press(channel: ChannelId, id: EpisodeId, dir: Direction, updatedAt: int) returns (ghost seen: seq<Episode>)
      requires Keyed(rows)
      modifies this
      ensures Keyed(rows)
      ensures Presses(old(rows), channel, id, dir, updatedAt, seen, rows)
    {
      var eps := ListChannel(channel);
      seen := eps;
      var i := 0;
      while i < |eps| && eps[i].id != id
        invariant 0 <= i <= |eps| && forall k | 0 <= k < i :: eps[k].id != id
      {
        i := i + 1;
      }
      if i == |eps| {
        return;
      }
      assert Ids(eps)[i] == id;
      IndexOfDistinct(Ids(eps), i);
      var j := if dir.Down? then i + 1 else i - 1;
      if j < 0 || j >= |eps| {
        return;
      }
      eps := eps[i := eps[j]][j := eps[i]];
      assert Ids(eps) == Moved(Ids(seen), id, dir).value;
      MovedIsPermutation(Ids(seen), id, dir);
      ListIsPermutation(rows, channel, seen, Ids(eps));
      var ok := ReorderEpisodes(channel, Ids(eps), updatedAt);
    }
  }

  // The next row of the list still stands as it did before the renumbering began.
  lemma RenumberOne(before: Rows, ids: seq<EpisodeId>, n: nat, updatedAt: int, rows: Rows)
    requires n < |ids| && Distinct(ids) && ids[n] in before && Renumbered(before, ids[..n], updatedAt, rows)
    ensures rows[ids[n]] == before[ids[n]]
    ensures Renumbered(before, ids[..n + 1], updatedAt,
              if before[ids[n]].position == n then rows
              else rows[ids[n] := before[ids[n]].(position := n, updatedAt := updatedAt)])
  {
    assert ids[n] !in ids[..n];
    assert ids[..n + 1] == ids[..n] + [ids[n]];
  }
}
