/**
 * `updateSongs`: fetch the recent songs, keep one record per `ID` (the one
 * with the latest date), and save them to the database.
 */
module UpdateSongs {
  import opened Wrappers
  import opened Sequences
  import opened FetchSongs
  import opened SongId
  import opened SupabaseStore

  /** The position of the first record with this id, or -1 when there is none. */
  function Position(r: seq<RecentSong>, id: Option<string>): (k: int)
    ensures -1 <= k < |r|
    ensures k >= 0 ==> r[k].id == id && forall j | 0 <= j < k :: r[j].id != id
    ensures k == -1 ==> forall j | 0 <= j < |r| :: r[j].id != id
  {
    if r == [] then -1
    else if r[0].id == id then 0
    else
      var k := Position(r[1..], id);
      if k == -1 then -1 else k + 1
  }

  /** The ids of the records, in order. */
  function IdsIn(r: seq<RecentSong>): (ids: seq<Option<string>>)
    ensures |ids| == |r|
    ensures forall i | 0 <= i < |r| :: ids[i] == r[i].id
  {
    seq(|r|, i requires 0 <= i < |r| => r[i].id)
  }

  /**
   * One turn of the `forEach`: a record with a new id takes the next slot;
   * one with a strictly later date than the kept record replaces it in its
   * slot; any other record is dropped.
   */
  function Step(r: seq<RecentSong>, x: RecentSong): seq<RecentSong> {
    var k := Position(r, x.id);
    if k == -1 then r + [x]
    else if x.date > r[k].date then r[k := x]
    else r
  }

  /** The values of the `deduplicatedSongs` map after the `forEach` over `songs`. */
  function KeepLatest(songs: seq<RecentSong>): seq<RecentSong>
    decreases |songs|
  {
    if songs == [] then [] else Step(KeepLatest(songs[..|songs| - 1]), songs[|songs| - 1])
  }

  /** A step keeps the id sequence or appends the new id, exactly as `Dedup` does. */
  lemma StepIds(r: seq<RecentSong>, x: RecentSong)
    ensures x.id in IdsIn(r) ==> IdsIn(Step(r, x)) == IdsIn(r)
    ensures x.id !in IdsIn(r) ==> IdsIn(Step(r, x)) == IdsIn(r) + [x.id]
  {
    var k := Position(r, x.id);
    if k == -1 {
      assert x.id !in IdsIn(r);
      assert IdsIn(r + [x]) == IdsIn(r) + [x.id];
    } else {
      assert IdsIn(r)[k] == x.id;
      assert IdsIn(r[k := x]) == IdsIn(r);
    }
  }

  /**
   * The kept ids are the input's ids in order of first appearance, so they
   * are pairwise distinct, they are exactly the input's ids, and there are
   * at most as many records as inputs.
   */
  lemma {:induction false} KeepLatestIds(songs: seq<RecentSong>)
    ensures IdsIn(KeepLatest(songs)) == Dedup(IdsIn(songs))
    ensures Distinct(IdsIn(KeepLatest(songs)))
    ensures |KeepLatest(songs)| <= |songs|
    decreases |songs|
  {
    if songs != [] {
      var init := songs[..|songs| - 1];
      var x := songs[|songs| - 1];
      KeepLatestIds(init);
      var ids := IdsIn(songs);
      assert ids[..|ids| - 1] == IdsIn(init);
      StepIds(KeepLatest(init), x);
    }
  }

  /** No input record with a kept record's id has a later date. */
  predicate Latest(songs: seq<RecentSong>, r: seq<RecentSong>) {
    forall k, i | 0 <= k < |r| && 0 <= i < |songs| && songs[i].id == r[k].id :: songs[i].date <= r[k].date
  }

  /** Every kept record is an input record. */
  predicate Members(songs: seq<RecentSong>, r: seq<RecentSong>) {
    forall k | 0 <= k < |r| :: r[k] in songs
  }

  /** One step keeps `Latest` and `Members`. */
  lemma LatestStep(init: seq<RecentSong>, x: RecentSong, r: seq<RecentSong>)
    requires Latest(init, r) && Members(init, r) && Distinct(IdsIn(r))
    requires forall i | 0 <= i < |init| :: init[i].id in IdsIn(r)
    ensures Latest(init + [x], Step(r, x)) && Members(init + [x], Step(r, x))
  {
    var songs := init + [x];
    var r' := Step(r, x);
    var k := Position(r, x.id);
    forall j | 0 <= j < |r'| ensures r'[j] in songs {
      if r'[j] != x {
        assert r'[j] == r[j] && r[j] in init;
      }
    }
    if k == -1 {
      forall i | 0 <= i < |init| ensures init[i].id != x.id {
        assert init[i].id in IdsIn(r);
      }
    } else {
      forall j | 0 <= j < |r| && j != k ensures r[j].id != x.id {
        assert IdsIn(r)[j] != IdsIn(r)[k];
      }
    }
    forall j, i | 0 <= j < |r'| && 0 <= i < |songs| && songs[i].id == r'[j].id
      ensures songs[i].date <= r'[j].date
    {
      if i < |init| {
        assert songs[i] == init[i];
      }
    }
  }

  /** Every input record's id is the id of some kept record. */
  lemma KeptIdsCover(songs: seq<RecentSong>)
    ensures forall i | 0 <= i < |songs| :: songs[i].id in IdsIn(KeepLatest(songs))
  {
    KeepLatestIds(songs);
    forall i | 0 <= i < |songs| ensures songs[i].id in IdsIn(KeepLatest(songs)) {
      assert IdsIn(songs)[i] in IdsIn(songs);
    }
  }

  /** Every kept record is an input record, and no input record with its id has a later date. */
  lemma {:induction false} KeepLatestIsLatest(songs: seq<RecentSong>)
    ensures Members(songs, KeepLatest(songs))
    ensures Latest(songs, KeepLatest(songs))
    decreases |songs|
  {
    if songs != [] {
      var init := songs[..|songs| - 1];
      KeepLatestIsLatest(init);
      KeepLatestIds(init);
      KeptIdsCover(init);
      LatestStep(init, songs[|songs| - 1], KeepLatest(init));
      assert init + [songs[|songs| - 1]] == songs;
    }
  }

  /** `songs[m]` is `y`, and every earlier record with `y`'s id has an earlier date. */
  predicate FirstOfLatestAt(songs: seq<RecentSong>, m: int, y: RecentSong) {
    0 <= m < |songs| && songs[m] == y
    && forall i | 0 <= i < m && songs[i].id == y.id :: songs[i].date < y.date
  }

  /** Each kept record is the first input record with its id and its date. */
  predicate EarliestOfLatest(songs: seq<RecentSong>, r: seq<RecentSong>) {
    forall k | 0 <= k < |r| :: IsFirstOfLatest(songs, r[k])
  }

  /** `y` occurs in `songs` with no earlier record of its id dated as late. */
  predicate IsFirstOfLatest(songs: seq<RecentSong>, y: RecentSong) {
    exists m | 0 <= m < |songs| :: FirstOfLatestAt(songs, m, y)
  }

  lemma FirstOfLatestExtend(init: seq<RecentSong>, x: RecentSong, m: int, y: RecentSong)
    requires FirstOfLatestAt(init, m, y)
    ensures FirstOfLatestAt(init + [x], m, y)
  {
    assert forall i | 0 <= i <= m :: (init + [x])[i] == init[i];
  }

  lemma FirstOfLatestLast(init: seq<RecentSong>, x: RecentSong)
    requires forall i | 0 <= i < |init| && init[i].id == x.id :: init[i].date < x.date
    ensures FirstOfLatestAt(init + [x], |init|, x)
  {
    assert forall i | 0 <= i < |init| :: (init + [x])[i] == init[i];
  }

  /** The input position that makes slot `j` of one step's result the first record of the latest date. */
  lemma EarliestWitness(init: seq<RecentSong>, x: RecentSong, r: seq<RecentSong>, j: int) returns (m: int)
    requires EarliestOfLatest(init, r) && Latest(init, r)
    requires forall i | 0 <= i < |init| :: init[i].id in IdsIn(r)
    requires 0 <= j < |Step(r, x)|
    ensures FirstOfLatestAt(init + [x], m, Step(r, x)[j])
  {
    var r' := Step(r, x);
    var k := Position(r, x.id);
    if j < |r| && r'[j] == r[j] {
      assert IsFirstOfLatest(init, r[j]);
      m :| 0 <= m < |init| && FirstOfLatestAt(init, m, r[j]);
      FirstOfLatestExtend(init, x, m, r[j]);
    } else {
      if k == -1 {
        forall i | 0 <= i < |init| ensures init[i].id != x.id {
          assert init[i].id in IdsIn(r);
        }
      } else {
        forall i | 0 <= i < |init| && init[i].id == x.id ensures init[i].date < x.date {
          assert init[i].date <= r[k].date;
        }
      }
      m := |init|;
      FirstOfLatestLast(init, x);
    }
  }

  /** One step keeps `EarliestOfLatest`. */
  lemma EarliestStep(init: seq<RecentSong>, x: RecentSong, r: seq<RecentSong>)
    requires EarliestOfLatest(init, r) && Latest(init, r)
    requires forall i | 0 <= i < |init| :: init[i].id in IdsIn(r)
    ensures EarliestOfLatest(init + [x], Step(r, x))
  {
    forall j | 0 <= j < |Step(r, x)| ensures IsFirstOfLatest(init + [x], Step(r, x)[j]) {
      var m := EarliestWitness(init, x, r, j);
    }
  }

  /** Among records with the latest date, the earliest one is kept: the comparison is strict. */
  lemma {:induction false} KeepLatestTiesKeepFirst(songs: seq<RecentSong>)
    ensures EarliestOfLatest(songs, KeepLatest(songs))
    decreases |songs|
  {
    if songs != [] {
      var init := songs[..|songs| - 1];
      KeepLatestTiesKeepFirst(init);
      KeepLatestIsLatest(init);
      KeptIdsCover(init);
      EarliestStep(init, songs[|songs| - 1], KeepLatest(init));
      assert init + [songs[|songs| - 1]] == songs;
    }
  }

  /** Appending a record with a new id puts that id in the last slot and moves no other id. */
  lemma PositionAppend(r: seq<RecentSong>, x: RecentSong, id: Option<string>)
    requires Position(r, x.id) == -1
    ensures Position(r + [x], id) == if id == x.id then |r| else Position(r, id)
  {
    assert forall j | 0 <= j < |r| :: (r + [x])[j] == r[j];
    assert (r + [x])[|r|] == x;
  }

  /** Replacing a record by one with the same id moves no id. */
  lemma PositionReplace(r: seq<RecentSong>, k: int, x: RecentSong, id: Option<string>)
    requires 0 <= k < |r| && r[k].id == x.id
    ensures Position(r[k := x], id) == Position(r, id)
  {
    var p := Position(r, id);
    var q := Position(r[k := x], id);
    assert forall j | 0 <= j < |r| :: r[k := x][j].id == r[j].id;
  }

  /**
   * The deduplication loop: `slots` holds, for every id seen, the index of
   * its record in `unique`, as the `Map` keeps a replaced value in place.
   */
  method Deduplicate(songs: seq<RecentSong>) returns (unique: seq<RecentSong>)
    ensures unique == KeepLatest(songs)
  {
    var slots: map<Option<string>, nat> := map[];
    unique := [];
    for i := 0 to |songs|
      invariant unique == KeepLatest(songs[..i])
      invariant forall id | id in slots :: slots[id] == Position(unique, id)
      invariant forall id | id !in slots :: Position(unique, id) == -1
    {
      assert songs[..i + 1][..i] == songs[..i];
      var song := songs[i];
      if song.id !in slots {
        forall id ensures Position(unique + [song], id) == if id == song.id then |unique| else Position(unique, id) {
          PositionAppend(unique, song, id);
        }
        slots := slots[song.id := |unique|];
        unique := unique + [song];
      } else if song.date > unique[slots[song.id]].date {
        var k := slots[song.id];
        forall id ensures Position(unique[k := song], id) == Position(unique, id) {
          PositionReplace(unique, k, song, id);
        }
        unique := unique[k := song];
      }
    }
    assert songs[..|songs|] == songs;
  }

  const NoSongsFetched: string := "No songs fetched from radio API"

  /**
   * What `updateSongs` returns. `songsUpdated` is the value `saveSongs`
   * resolves to, which is always undefined (None): it returns nothing.
   */
  datatype UpdateResult = UpdateResult(success: bool, songsUpdated: Option<nat>, timestamp: int)

  /**
   * `updateSongs`, as written: the fetched songs are grouped by their `ID`
   * field before saving. A thrown error is an `Err`.
   */
  method UpdateSongs(store: DataStorage, feed: Option<seq<TrackItem>>, now: int, fault: Option<Step>)
    returns (r: Result<UpdateResult>)
    requires store.Valid()
    modifies store
    ensures store.Valid()
    ensures !store.configured ==> r == Err(NotConfigured) && store.songs == old(store.songs)
    ensures store.configured && FetchSongs.FetchSongs(feed) == [] ==> r == Err(NoSongsFetched) && store.songs == old(store.songs)
    ensures r.Err?
  {
    if !store.configured {
      return Err(NotConfigured);
    }
    var fetched := FetchSongs.FetchSongs(feed);
    if |fetched| == 0 {
      return Err(NoSongsFetched);
    }
    var unique := Deduplicate(fetched);
    UpdateSongsNeverSaves(feed);
    var saved := store.SaveSongs(unique, now, fault);
    if saved.Err? {
      return Err(saved.message);
    }
    return Ok(UpdateResult(true, None, now));
  }

  /** No fetched record carries an `ID`. */
  lemma FetchedSongsHaveNoId(feed: Option<seq<TrackItem>>)
    ensures forall i | 0 <= i < |FetchSongs.FetchSongs(feed)| :: FetchSongs.FetchSongs(feed)[i].id.None?
  { }

  /** Records that all lack an `ID` collapse into at most one, lacking an `ID` too. */
  lemma {:induction false} IdlessCollapse(songs: seq<RecentSong>)
    requires forall i | 0 <= i < |songs| :: songs[i].id.None?
    ensures |KeepLatest(songs)| <= 1
    ensures forall k | 0 <= k < |KeepLatest(songs)| :: KeepLatest(songs)[k].id.None?
    decreases |songs|
  {
    if songs != [] {
      var init := songs[..|songs| - 1];
      IdlessCollapse(init);
      KeepLatestIsLatest(songs);
    }
  }

  /**
   * As written, `updateSongs` never saves anything: the fetched records have
   * no `ID`, so they collapse into a single record whose `custom_song_id`
   * the upsert rejects.
   */
  lemma UpdateSongsNeverSaves(feed: Option<seq<TrackItem>>)
    ensures FetchSongs.FetchSongs(feed) != [] ==> |KeepLatest(FetchSongs.FetchSongs(feed))| == 1
    ensures !UpsertableIds(KeepLatest(FetchSongs.FetchSongs(feed))) || FetchSongs.FetchSongs(feed) == []
  {
    var fetched := FetchSongs.FetchSongs(feed);
    FetchedSongsHaveNoId(feed);
    IdlessCollapse(fetched);
    if fetched != [] {
      KeepLatestIds(fetched);
      assert IdsIn(fetched)[0] in Dedup(IdsIn(fetched));
    }
  }

  /** Every record tagged with `getSongID(artist, title)`, as the update route does. */
  function WithSongIds(songs: seq<RecentSong>): (r: seq<RecentSong>)
    ensures |r| == |songs|
    ensures forall i | 0 <= i < |songs| :: r[i] == songs[i].(id := Some(GetSongId(songs[i].artist, songs[i].title)))
  {
    seq(|songs|, i requires 0 <= i < |songs| => songs[i].(id := Some(GetSongId(songs[i].artist, songs[i].title))))
  }

  /** Deduplicated records that all carry an id have pairwise distinct ids: the upsert accepts them. */
  lemma KeptIdsUpsertable(songs: seq<RecentSong>)
    requires forall i | 0 <= i < |songs| :: songs[i].id.Some?
    ensures UpsertableIds(KeepLatest(songs))
  {
    KeepLatestIds(songs);
    KeepLatestIsLatest(songs);
  }

  /**
   * `updateSongs` with every record given its song id before grouping: one
   * record per song is saved, and with no database fault the save succeeds.
   */
  method UpdateSongsWithIds(store: DataStorage, feed: Option<seq<TrackItem>>, now: int, fault: Option<Step>)
    returns (r: Result<UpdateResult>)
    requires store.Valid()
    modifies store
    ensures store.Valid()
    ensures !store.configured ==> r == Err(NotConfigured) && store.songs == old(store.songs)
    ensures store.configured && FetchSongs.FetchSongs(feed) == [] ==> r == Err(NoSongsFetched) && store.songs == old(store.songs)
    ensures store.configured && FetchSongs.FetchSongs(feed) != [] && fault.None? ==> r.Ok?
    ensures r.Ok? ==> r.value == UpdateResult(true, None, now)
    ensures r.Ok? ==> Saveable(KeepLatest(WithSongIds(FetchSongs.FetchSongs(feed))), store.artists)
                      && store.songs == Upserted(old(store.songs), KeepLatest(WithSongIds(FetchSongs.FetchSongs(feed))), store.artists, now)
  {
    if !store.configured {
      return Err(NotConfigured);
    }
    var fetched := FetchSongs.FetchSongs(feed);
    if |fetched| == 0 {
      return Err(NoSongsFetched);
    }
    var unique := Deduplicate(WithSongIds(fetched));
    KeptIdsUpsertable(WithSongIds(fetched));
    var saved := store.SaveSongs(unique, now, fault);
    if saved.Err? {
      return Err(saved.message);
    }
    return Ok(UpdateResult(true, None, now));
  }
}
