/**
  `TrackRepository`: the `tracks` table in memory, one row per completed
  exercise session, rows in insertion order.
*/
module TrackRepo {
  import opened Wrappers
  import opened Tables

  /** A row of `tracks`; every column is NOT NULL. `dateCompletion` is a
      timestamp supplied by the caller in place of the clock. */
  datatype Track = Track(id: int, exerciseId: int, userId: int, dateCompletion: int, duration: int)

  function OfPair(exerciseId: int, userId: int): Track -> bool {
    (t: Track) => t.exerciseId == exerciseId && t.userId == userId
  }

  function OfUser(userId: int): Track -> bool {
    (t: Track) => t.userId == userId
  }

  function HasId(id: int): Track -> bool {
    (t: Track) => t.id == id
  }

  function OtherThan(id: int): Track -> bool {
    (t: Track) => t.id != id
  }

  predicate DistinctIds(a: Track, b: Track) {
    a.id != b.id
  }

  /** The table's invariant: ids drawn from the sequence below `nextId`, no two rows sharing one. */
  ghost predicate TableValid(rows: seq<Track>, nextId: int) {
    && nextId >= 1
    && (forall i :: 0 <= i < |rows| ==> 1 <= rows[i].id < nextId)
    && (forall i, j :: 0 <= i < j < |rows| ==> DistinctIds(rows[i], rows[j]))
  }

  /** Deleting by primary key keeps the invariant. */
  lemma RemoveKeepsValid(rows: seq<Track>, nextId: int, id: int)
    requires TableValid(rows, nextId)
    ensures TableValid(Filter(rows, OtherThan(id)), nextId)
  {
    FilterKeepsPairwise(rows, OtherThan(id), DistinctIds);
    var kept := Filter(rows, OtherThan(id));
    forall i | 0 <= i < |kept|
      ensures 1 <= kept[i].id < nextId
    {
      var j :| 0 <= j < |rows| && rows[j] == kept[i];
    }
  }

  class TrackRepository {
    /** The table, in insertion order. */
    var rows: seq<Track>
    /** The next value of the id sequence. */
    var nextId: int

    ghost predicate Valid()
      reads this
    {
      TableValid(rows, nextId)
    }

    constructor ()
      ensures Valid()
      ensures rows == [] && nextId == 1
    {
      rows := [];
      nextId := 1;
    }

    /** `create({ exerciseId, userId, duration })`: inserts a row with a fresh
        id, the given fields as they are, and `now` as its completion date. */
    method Create(exerciseId: int, userId: int, duration: int, now: int) returns (t: Track)
      requires Valid()
      modifies this
      ensures Valid()
      ensures t == Track(old(nextId), exerciseId, userId, now, duration)
      ensures rows == old(rows) + [t]
      ensures nextId == old(nextId) + 1
      ensures forall i :: 0 <= i < |old(rows)| ==> old(rows)[i].id != t.id
    {
      t := Track(nextId, exerciseId, userId, now, duration);
      rows := rows + [t];
      nextId := nextId + 1;
    }

    /** `findOne({ exerciseId, userId })`: the first row with both values, or null. */
    function FindOne(exerciseId: int, userId: int): (r: Option<Track>)
      reads this
      ensures r.Some? ==> r.value in rows && r.value.exerciseId == exerciseId && r.value.userId == userId
      ensures r.None? <==> forall i :: 0 <= i < |rows| ==> !(rows[i].exerciseId == exerciseId && rows[i].userId == userId)
      ensures r.Some? ==>
                exists k :: (0 <= k < |rows| && rows[k] == r.value &&
                  forall j :: 0 <= j < k ==> !(rows[j].exerciseId == exerciseId && rows[j].userId == userId))
    {
      FindFirst(rows, OfPair(exerciseId, userId))
    }

    /** `list({ userId, limit, page })`: the user's rows from offset
        limit * page, at most limit of them. */
    function List(userId: int, limit: nat, page: nat): (r: seq<Track>)
      reads this
      ensures |r| <= limit
      ensures forall i :: 0 <= i < |r| ==> r[i] in rows && r[i].userId == userId
      ensures var own, offset := Filter(rows, OfUser(userId)), Offset(limit, page);
              && (offset < |own| ==> |r| == Min(limit, |own| - offset) && r == own[offset .. offset + |r|])
              && (offset >= |own| ==> r == [])
    {
      Paginate(Filter(rows, OfUser(userId)), limit, page)
    }

    /** `delete({ track })`: removes the row with the track's primary key. */
    method Delete(track: Track)
      requires Valid()
      modifies this
      ensures Valid()
      ensures nextId == old(nextId)
      ensures rows == Filter(old(rows), OtherThan(track.id))
      ensures track in old(rows) ==> |rows| == |old(rows)| - 1
    {
      RemoveKeepsValid(rows, nextId, track.id);
      if track in rows {
        var k :| 0 <= k < |rows| && rows[k] == track;
        FilterDropsOne(rows, OtherThan(track.id), k);
      }
      rows := Filter(rows, OtherThan(track.id));
    }
  }

  /** A new track is the last of its user's tracks: listing every page of
      the user's tracks after `create` gives the earlier ones, then it. */
  lemma CreatedTrackListedLast(before: seq<Track>, t: Track)
    ensures Filter(before + [t], OfUser(t.userId)) == Filter(before, OfUser(t.userId)) + [t]
  {
    FilterAppend(before, [t], OfUser(t.userId));
  }

  /** Listing never shows another user's track, on any page. */
  lemma ListOnlyOwn(repo: TrackRepository, userId: int, other: Track, limit: nat, page: nat)
    requires other.userId != userId
    ensures other !in repo.List(userId, limit, page)
  {
  }
}
