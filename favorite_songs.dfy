/**
 * `GET /api/favorites/songs`: the songs liked from this device (and, when
 * signed in, from the account's other devices), each with the time it was
 * first liked.
 */
module FavoriteSongs {
  import opened Wrappers
  import opened Sequences
  import opened SupabaseStore
  import opened InteractionsTable

  /** A row of the songs query, joined with the artist's name. */
  datatype SongRecord = SongRecord(id: string, customSongId: string, title: string, coverUrl: Option<string>, artist: Option<string>)

  /** A song of the payload: the song's fields and `created_at`. */
  datatype FavoriteSong = FavoriteSong(song: SongRecord, createdAt: Option<int>)

  /**
   * The devices whose likes count: the devices linked to the signed-in
   * account (`None` when not signed in or when the query gives no data),
   * then the current device.
   */
  function UserIds(linked: Option<seq<string>>, deviceId: string): (ids: seq<string>)
    ensures |ids| >= 1 && ids[|ids| - 1] == deviceId
    ensures forall d | d in ids :: d == deviceId || (linked.Some? && d in linked.value)
    ensures linked.Some? ==> forall d | d in linked.value :: d in ids
  {
    (if linked.Some? then linked.value else []) + [deviceId]
  }

  /** The like rows on songs by any of the devices, in table order. */
  function LikesBy(rows: seq<Row>, users: seq<string>): (r: seq<Row>)
    ensures forall x | x in r :: x in rows && x.entityType == SongEntity && x.kind == Like && x.userId in users
    ensures forall x | x in rows && x.entityType == SongEntity && x.kind == Like && x.userId in users :: x in r
  {
    if rows == [] then []
    else (if rows[0].entityType == SongEntity && rows[0].kind == Like && rows[0].userId in users then [rows[0]] else [])
         + LikesBy(rows[1..], users)
  }

  function EntityIds(rows: seq<Row>): (ids: seq<string>)
    ensures |ids| == |rows|
    ensures forall i | 0 <= i < |rows| :: ids[i] == rows[i].entityId
  {
    seq(|rows|, i requires 0 <= i < |rows| => rows[i].entityId)
  }

  /** The earliest `created_at` among the rows on entity `id`, `None` when there are none. */
  function Earliest(rows: seq<Row>, id: string): (t: Option<int>)
    ensures t.None? <==> forall i | 0 <= i < |rows| :: rows[i].entityId != id
    ensures t.Some? ==> exists i | 0 <= i < |rows| :: rows[i].entityId == id && rows[i].createdAt == t.value
    ensures t.Some? ==> forall i | 0 <= i < |rows| && rows[i].entityId == id :: t.value <= rows[i].createdAt
    decreases |rows|
  {
    if rows == [] then None
    else
      var init := rows[..|rows| - 1];
      var last := rows[|rows| - 1];
      var prev := Earliest(init, id);
      assert forall i | 0 <= i < |init| :: init[i] == rows[i];
      if last.entityId != id then prev
      else if prev.None? || last.createdAt < prev.value then Some(last.createdAt)
      else prev
  }

  function EarliestSnocValue(rows: seq<Row>, x: Row, id: string): Option<int> {
    if x.entityId != id then Earliest(rows, id)
    else if Earliest(rows, id).None? || x.createdAt < Earliest(rows, id).value then Some(x.createdAt)
    else Earliest(rows, id)
  }

  /** One more row: the earliest time on its entity is the smaller of the old one and the row's own. */
  lemma EarliestSnoc(rows: seq<Row>, x: Row, id: string)
    ensures Earliest(rows + [x], id) == EarliestSnocValue(rows, x, id)
  {
    assert (rows + [x])[..|rows|] == rows;
  }

  /** The map the loop builds: each liked entity with its earliest like time so far. */
  function EarliestMap(rows: seq<Row>): map<string, int>
    decreases |rows|
  {
    if rows == [] then map[]
    else
      var m := EarliestMap(rows[..|rows| - 1]);
      var x := rows[|rows| - 1];
      if x.entityId !in m || x.createdAt < m[x.entityId] then m[x.entityId := x.createdAt] else m
  }

  /** The map holds exactly the liked entities, each with its earliest like time. */
  lemma {:induction false} EarliestMapIsEarliest(rows: seq<Row>)
    ensures forall id :: Earliest(rows, id) == if id in EarliestMap(rows) then Some(EarliestMap(rows)[id]) else None
    decreases |rows|
  {
    if rows != [] {
      var init := rows[..|rows| - 1];
      var x := rows[|rows| - 1];
      EarliestMapIsEarliest(init);
      assert rows == init + [x];
      forall id ensures Earliest(rows, id) == if id in EarliestMap(rows) then Some(EarliestMap(rows)[id]) else None {
        EarliestSnoc(init, x, id);
      }
    }
  }

  /** One more like: the map changes as the loop body changes it. */
  lemma EarliestMapSnoc(rows: seq<Row>, x: Row)
    ensures EarliestMap(rows + [x]) ==
              var m := EarliestMap(rows);
              if x.entityId !in m || x.createdAt < m[x.entityId] then m[x.entityId := x.createdAt] else m
  {
    assert (rows + [x])[..|rows|] == rows;
  }

  /** One more like: its entity joins the id list when it is new. */
  lemma EntityIdsSnoc(rows: seq<Row>, x: Row)
    ensures Dedup(EntityIds(rows + [x])) ==
              var d := Dedup(EntityIds(rows));
              if x.entityId in d then d else d + [x.entityId]
  {
    assert EntityIds(rows + [x]) == EntityIds(rows) + [x.entityId];
    DedupSnoc(EntityIds(rows), x.entityId);
  }

  /**
   * The `for...of` loop: `entityIds` collects each entity once, in order of
   * first appearance, and `createdAt` keeps the earliest time per entity.
   */
  method CollectLikes(likes: seq<Row>) returns (entityIds: seq<string>, createdAt: map<string, int>)
    ensures entityIds == Dedup(EntityIds(likes))
    ensures forall id :: id in createdAt <==> id in entityIds
    ensures forall id | id in createdAt :: Earliest(likes, id) == Some(createdAt[id])
  {
    entityIds := [];
    createdAt := map[];
    for i := 0 to |likes|
      invariant entityIds == Dedup(EntityIds(likes[..i]))
      invariant createdAt == EarliestMap(likes[..i])
      invariant forall id :: id in createdAt <==> id in entityIds
    {
      var row := likes[i];
      assert likes[..i + 1] == likes[..i] + [row];
      EarliestMapSnoc(likes[..i], row);
      EntityIdsSnoc(likes[..i], row);
      if row.entityId !in createdAt {
        createdAt := createdAt[row.entityId := row.createdAt];
        entityIds := entityIds + [row.entityId];
      } else if row.createdAt < createdAt[row.entityId] {
        createdAt := createdAt[row.entityId := row.createdAt];
      }
    }
    assert likes[..|likes|] == likes;
    EarliestMapIsEarliest(likes);
  }

  /** The songs the query `.in("id", ids)` returns, in table order. */
  function SongsWithin(songs: seq<SongRecord>, ids: seq<string>): seq<SongRecord> {
    Within(songs, (s: SongRecord) => s.id, ids)
  }

  /** Each song with the earliest like on it. */
  function Stamped(songs: seq<SongRecord>, likes: seq<Row>): (r: seq<FavoriteSong>)
    ensures |r| == |songs|
    ensures forall i | 0 <= i < |songs| :: r[i].song == songs[i] && r[i].createdAt == Earliest(likes, songs[i].id)
  {
    seq(|songs|, i requires 0 <= i < |songs| => FavoriteSong(songs[i], Earliest(likes, songs[i].id)))
  }

  /**
   * `GET`. The device-profile lookup's answer is `linked`; the like rows and
   * the songs table are given, and `songsFail` is an error of the songs
   * query. Every fallback answers `[]`.
   */
  method Get(configured: bool, clientPresent: bool, deviceId: Option<string>, linked: Option<seq<string>>,
             rows: seq<Row>, songs: seq<SongRecord>, songsFail: bool) returns (payload: seq<FavoriteSong>)
    ensures !configured || !clientPresent || deviceId.None? || deviceId == Some("") ==> payload == []
    ensures songsFail ==> payload == []
    ensures configured && clientPresent && deviceId.Some? && deviceId.value != "" ==>
              var likes := LikesBy(rows, UserIds(linked, deviceId.value));
              payload == if likes == [] || songsFail then []
                         else Stamped(SongsWithin(songs, Dedup(EntityIds(likes))), likes)
    ensures forall k | 0 <= k < |payload| :: payload[k].createdAt.Some?
  {
    if !configured || !clientPresent {
      return [];
    }
    if deviceId.None? || deviceId.value == "" {
      return [];
    }
    var users := UserIds(linked, deviceId.value);
    var likes := LikesBy(rows, users);
    if |likes| == 0 {
      return [];
    }
    var entityIds, createdAt := CollectLikes(likes);
    if songsFail {
      return [];
    }
    var found := SongsWithin(songs, entityIds);
    assert forall s | s in found :: s.id in entityIds;
    payload := StampAll(found, likes, createdAt);
  }

  /** The payload's `map`: each found song with the time kept for its id. */
  method StampAll(found: seq<SongRecord>, likes: seq<Row>, createdAt: map<string, int>) returns (payload: seq<FavoriteSong>)
    requires forall s | s in found :: s.id in createdAt
    requires forall id | id in createdAt :: Earliest(likes, id) == Some(createdAt[id])
    ensures payload == Stamped(found, likes)
    ensures forall k | 0 <= k < |payload| :: payload[k].createdAt.Some?
  {
    payload := [];
    for k := 0 to |found|
      invariant payload == Stamped(found[..k], likes)
    {
      assert found[k] in found;
      var stamp := Some(createdAt[found[k].id]);
      assert Stamped(found[..k + 1], likes) == Stamped(found[..k], likes) + [FavoriteSong(found[k], stamp)];
      payload := payload + [FavoriteSong(found[k], stamp)];
    }
    assert found[..|found|] == found;
  }
}
