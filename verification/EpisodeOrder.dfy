/**
 The manual order of a channel's episodes: listing, renumbering and moving by one
 (store/sqlite/sqlite_crud.go, server/handlers_admin.go).
 */
module EpisodeOrder {
  import opened Collections
  import opened Options
  import opened Sorting

  type EpisodeId = nat
  type ChannelId = nat

  // Times in Unix seconds.
  datatype Episode = Episode(
    id: EpisodeId,
    channel: ChannelId,
    position: int,
    published: bool,
    publishedAt: Option<int>,
    createdAt: int,
    updatedAt: int)

  type Rows = map<EpisodeId, Episode>

  ghost predicate Keyed(rows: Rows) {
    forall id | id in rows :: rows[id].id == id
  }

  function ChannelIds(rows: Rows, channel: ChannelId): set<EpisodeId> {
    set id | id in rows && rows[id].channel == channel
  }

  // ORDER BY position, COALESCE(published_at, created_at) DESC, created_at DESC.
  predicate ListedBefore(a: Episode, b: Episode) {
    var ra, rb := a.publishedAt.GetOr(a.createdAt), b.publishedAt.GetOr(b.createdAt);
    if a.position != b.position then a.position < b.position
    else if ra != rb then ra > rb
    else a.createdAt >= b.createdAt
  }

  function Ids(eps: seq<Episode>): (ids: seq<EpisodeId>)
    ensures |ids| == |eps|
  {
    seq(|eps|, i requires 0 <= i < |eps| => eps[i].id)
  }

  // A list the query may return; ties are the database's choice.
  ghost predicate IsListing(rows: Rows, channel: ChannelId, out: seq<Episode>) {
    && Distinct(Ids(out))
    && (forall id :: id in Ids(out) <==> id in ChannelIds(rows, channel))
    && (forall i | 0 <= i < |out| :: out[i].id in rows && out[i] == rows[out[i].id])
    && SortedBy(ListedBefore, out)
  }

  // What ListEpisodes is asked for; a limit of zero or less is none.
  datatype Filter = Filter(channel: Option<ChannelId>, publishedOnly: bool, limit: int)

  predicate Wanted(f: Filter, e: Episode) {
    (f.channel.Some? ==> e.channel == f.channel.value) && (f.publishedOnly ==> e.published)
  }

  function WantedIds(rows: Rows, f: Filter): set<EpisodeId> {
    set id | id in rows && Wanted(f, rows[id])
  }

  // The first rows, up to the limit, of all that are wanted, in order: whatever is left out
  // would not come before anything that is returned.
  ghost predicate IsSelection(rows: Rows, f: Filter, out: seq<Episode>) {
    && Distinct(Ids(out))
    && (forall i | 0 <= i < |out| :: out[i].id in WantedIds(rows, f) && out[i] == rows[out[i].id])
    && SortedBy(ListedBefore, out)
    && |out| == (if 0 < f.limit < |WantedIds(rows, f)| then f.limit else |WantedIds(rows, f)|)
    && (forall i, id | 0 <= i < |out| && id in WantedIds(rows, f) && id !in Ids(out) :: ListedBefore(out[i], rows[id]))
  }

  // The admin pages ask for all of one channel, and then the selection is the listing.
  lemma ChannelSelectionIsListing(rows: Rows, channel: ChannelId, out: seq<Episode>)
    requires IsSelection(rows, Filter(Some(channel), false, 0), out)
    ensures IsListing(rows, channel, out)
  {
    var f, listed := Filter(Some(channel), false, 0), Ids(out);
    assert WantedIds(rows, f) == ChannelIds(rows, channel);
    assert forall i | 0 <= i < |out| :: listed[i] == out[i].id;
    AllOfThem(listed, WantedIds(rows, f));
  }

  // An exact permutation of the channel's episode ids.
  predicate IsPermutation(rows: Rows, channel: ChannelId, ids: seq<EpisodeId>) {
    Distinct(ids) && Members(ids) == ChannelIds(rows, channel)
  }

  // Renumbering: rows of the list get their index, and a new updated_at if that moves them;
  // no other row changes.
  ghost predicate Renumbered(rows: Rows, ids: seq<EpisodeId>, updatedAt: int, rows': Rows) {
    && rows'.Keys == rows.Keys
    && (forall id | id in rows && id !in ids :: rows'[id] == rows[id])
    && (forall i | 0 <= i < |ids| && ids[i] in rows ::
          rows'[ids[i]] == if rows[ids[i]].position == i then rows[ids[i]] else rows[ids[i]].(position := i, updatedAt := updatedAt))
  }

  // ---------------------------------------------------------------- what a reorder means

  // A strictly increasing run of n indices below n is 0, 1, ..., n - 1.
  lemma {:induction false} IncreasingFromZero(f: seq<int>, i: nat)
    requires i < |f| && (forall j, k | 0 <= j < k < |f| :: f[j] < f[k]) && forall j | 0 <= j < |f| :: 0 <= f[j]
    ensures i <= f[i]
  {
    if i == 0 {
    } else {
      IncreasingFromZero(f, i - 1);
    }
  }

  lemma {:induction false} IncreasingBelow(f: seq<int>, i: nat)
    requires i < |f| && (forall j, k | 0 <= j < k < |f| :: f[j] < f[k]) && forall j | 0 <= j < |f| :: f[j] < |f|
    ensures f[i] <= i
    decreases |f| - i
  {
    if i + 1 == |f| {
    } else {
      IncreasingBelow(f, i + 1);
    }
  }

  function IndexOf(ids: seq<EpisodeId>, id: EpisodeId): (i: nat)
    requires id in ids
    ensures i < |ids| && ids[i] == id
  {
    if ids[0] == id then 0 else 1 + IndexOf(ids[1..], id)
  }

  // After a renumbering the channel lists in exactly the given order.
  lemma ReorderGivesTheList(rows: Rows, channel: ChannelId, ids: seq<EpisodeId>, updatedAt: int, rows': Rows, out: seq<Episode>)
    requires Keyed(rows) && IsPermutation(rows, channel, ids) && Renumbered(rows, ids, updatedAt, rows')
    requires IsListing(rows', channel, out)
    ensures Ids(out) == ids
    ensures forall i | 0 <= i < |out| :: out[i].position == i
  {
    var listed := Ids(out);
    forall id ensures id in listed <==> id in ids {
      assert id in ids <==> id in Members(ids);
      assert id in ChannelIds(rows', channel) <==> id in ChannelIds(rows, channel) by { ChannelKept(rows, ids, updatedAt, rows', id); }
    }
    SameMembersSameLength(listed, ids);
    var at := seq(|out|, i requires 0 <= i < |out| => out[i].position);
    forall i | 0 <= i < |out| ensures 0 <= at[i] < |ids| && ids[at[i]] == listed[i] {
      assert listed[i] in ids;
      var k := IndexOf(ids, listed[i]);
      assert ids[k] in rows;
      assert out[i] == rows'[ids[k]];
    }
    forall j, k | 0 <= j < k < |at| ensures at[j] < at[k] {
      assert ListedBefore(out[j], out[k]) && listed[j] != listed[k];
    }
    forall i | 0 <= i < |out| ensures at[i] == i && out[i].position == i {
      IncreasingFromZero(at, i);
      IncreasingBelow(at, i);
    }
  }

  lemma ChannelKept(rows: Rows, ids: seq<EpisodeId>, updatedAt: int, rows': Rows, id: EpisodeId)
    requires Keyed(rows) && Renumbered(rows, ids, updatedAt, rows')
    ensures id in rows <==> id in rows'
    ensures id in rows ==> rows'[id].channel == rows[id].channel && rows'[id].id == id
  {
    if id in rows && id in ids {
      var k := IndexOf(ids, id);
      assert ids[k] in rows;
    }
  }

  // The lists of other channels are what they were, row for row.
  lemma OtherChannelsUntouched(rows: Rows, channel: ChannelId, ids: seq<EpisodeId>, updatedAt: int, rows': Rows,
                               other: ChannelId, out: seq<Episode>)
    requires Keyed(rows) && IsPermutation(rows, channel, ids) && Renumbered(rows, ids, updatedAt, rows') && other != channel
    ensures IsListing(rows', other, out) <==> IsListing(rows, other, out)
  {
    forall id ensures id in ChannelIds(rows', other) <==> id in ChannelIds(rows, other) {
      ChannelKept(rows, ids, updatedAt, rows', id);
    }
    forall id | id in ChannelIds(rows, other) ensures rows'[id] == rows[id] {
      assert id !in Members(ids);
    }
    assert forall i | 0 <= i < |out| :: out[i].id in Ids(out) by {
      assert forall i | 0 <= i < |out| :: Ids(out)[i] == out[i].id;
    }
  }

  // ---------------------------------------------------------------- moving by one

  datatype Direction = Up | Down

  // handleEpisodeMove on the displayed list: swap with the neighbour, or nothing at an edge.
  function Moved(ids: seq<EpisodeId>, id: EpisodeId, dir: Direction): Option<seq<EpisodeId>> {
    if id !in ids then None
    else
      var i := IndexOf(ids, id);
      var j := if dir.Down? then i + 1 else i - 1;
      if j < 0 || j >= |ids| then None else Some(ids[i := ids[j]][j := ids[i]])
  }

  // One press of the button: the handler lists, swaps and renumbers.
  ghost predicate Presses(rows: Rows, channel: ChannelId, id: EpisodeId, dir: Direction, updatedAt: int,
                          seen: seq<Episode>, rows': Rows)
  {
    && IsListing(rows, channel, seen)
    && match Moved(Ids(seen), id, dir)
       case None => rows' == rows
       case Some(ids) => Renumbered(rows, ids, updatedAt, rows')
  }

  lemma IndexOfDistinct(ids: seq<EpisodeId>, i: nat)
    requires Distinct(ids) && i < |ids|
    ensures IndexOf(ids, ids[i]) == i
  {
    var k := IndexOf(ids, ids[i]);
    assert ids[k] == ids[i];
  }

  lemma MovedIsPermutation(ids: seq<EpisodeId>, id: EpisodeId, dir: Direction)
    requires Distinct(ids) && Moved(ids, id, dir).Some?
    ensures var more := Moved(ids, id, dir).value;
      Distinct(more) && |more| == |ids| && forall x :: x in more <==> x in ids
  {
    var more := Moved(ids, id, dir).value;
    var i := IndexOf(ids, id);
    var j := if dir.Down? then i + 1 else i - 1;
    assert forall k | 0 <= k < |ids| :: more[k] == if k == i then ids[j] else if k == j then ids[i] else ids[k];
    forall x ensures x in more <==> x in ids {
      if x in ids {
        var k := IndexOf(ids, x);
        assert more[if k == i then j else if k == j then i else k] == x;
      }
    }
  }

  lemma MoveBack(ids: seq<EpisodeId>, id: EpisodeId)
    requires Distinct(ids) && Moved(ids, id, Down).Some?
    ensures Moved(Moved(ids, id, Down).value, id, Up) == Some(ids)
  {
    var more := Moved(ids, id, Down).value;
    var i := IndexOf(ids, id);
    MovedIsPermutation(ids, id, Down);
    IndexOfDistinct(more, i + 1);
    assert more[i + 1] == id;
    assert more[i + 1 := more[i]][i := more[i + 1]] == ids;
  }

  // Down and then up again: whatever the two presses listed, the channel afterwards lists
  // as it did for the first.
  lemma DownThenUpRestores(rows: Rows, channel: ChannelId, id: EpisodeId, t1: int, t2: int,
                           seen1: seq<Episode>, rows1: Rows, seen2: seq<Episode>, rows2: Rows, out: seq<Episode>)
    requires Keyed(rows) && Presses(rows, channel, id, Down, t1, seen1, rows1) && Moved(Ids(seen1), id, Down).Some?
    requires Presses(rows1, channel, id, Up, t2, seen2, rows2) && IsListing(rows2, channel, out)
    ensures Ids(out) == Ids(seen1)
  {
    var ids := Ids(seen1);
    var down := Moved(ids, id, Down).value;
    MovedIsPermutation(ids, id, Down);
    ListIsPermutation(rows, channel, seen1, down);
    ReorderGivesTheList(rows, channel, down, t1, rows1, seen2);
    MoveBack(ids, id);
    RenumberedKeeps(rows, channel, down, t1, rows1, ids);
    ReorderGivesTheList(rows1, channel, ids, t2, rows2, out);
  }

  lemma ListIsPermutation(rows: Rows, channel: ChannelId, seen: seq<Episode>, ids: seq<EpisodeId>)
    requires IsListing(rows, channel, seen) && Distinct(ids) && forall x :: x in ids <==> x in Ids(seen)
    ensures IsPermutation(rows, channel, ids)
  {
  }

  lemma RenumberedKeeps(rows: Rows, channel: ChannelId, ids: seq<EpisodeId>, updatedAt: int, rows': Rows, more: seq<EpisodeId>)
    requires Keyed(rows) && IsPermutation(rows, channel, ids) && Renumbered(rows, ids, updatedAt, rows')
    requires Distinct(more) && forall x :: x in more <==> x in ids
    ensures Keyed(rows') && IsPermutation(rows', channel, more)
  {
    forall id | id in rows' ensures rows'[id].id == id {
      ChannelKept(rows, ids, updatedAt, rows', id);
    }
    forall id ensures id in ChannelIds(rows', channel) <==> id in ChannelIds(rows, channel) {
      ChannelKept(rows, ids, updatedAt, rows', id);
    }
    assert Members(more) == Members(ids);
  }
}
