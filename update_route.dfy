/**
 * `POST /api/songs/update`: fetch the recent songs, give each its song id and
 * save them all to the database in one call.
 */
module UpdateRoute {
  import opened Wrappers
  import opened Sequences
  import opened FetchSongs
  import opened SongId
  import opened SupabaseStore
  import opened UpdateSongs

  const NotConfiguredError: string := "Supabase not configured"
  const NoSongsError: string := "No songs fetched"
  const UpdateFailedError: string := "Failed to update songs"

  /** A JSON answer: an error with optional details, or the success summary. */
  datatype Body =
    | Failure(error: string, details: Option<string>)
    | Updated(success: bool, songsUpdated: nat, timestamp: int)

  datatype Response = Response(status: nat, body: Body)

  /** The song id computed by the route's own `getSongID`. */
  function RouteSongId(song: RecentSong): (id: string)
    ensures forall c | c in id :: IdChar(c)
    ensures id == Normalize(song.artist + "-" + song.title)
  {
    GetSongId(song.artist, song.title)
  }

  /**
   * Two songs with the same artist and title get the same id, whichever
   * route computes it: the songs route keys its files with the same text.
   */
  lemma RouteIdsAgree(a: RecentSong, b: RecentSong)
    requires a.artist == b.artist && a.title == b.title
    ensures RouteSongId(a) == RouteSongId(b) == GetSongId(b.artist, b.title)
  { }

  /** A fetch that holds the same song twice gives two records with the same id, which the bulk upsert rejects. */
  lemma RepeatedSongNotUpsertable(fetched: seq<RecentSong>, i: int, j: int)
    requires 0 <= i < j < |fetched|
    requires fetched[i].artist == fetched[j].artist && fetched[i].title == fetched[j].title
    ensures !UpsertableIds(WithSongIds(fetched))
  {
    assert WithSongIds(fetched)[i].id == WithSongIds(fetched)[j].id;
  }

  /** Distinct songs in a fetch, distinct ids: with no repeated song the batch as built is upsertable. */
  lemma DistinctSongsUpsertable(fetched: seq<RecentSong>)
    requires Distinct(IdsIn(WithSongIds(fetched)))
    ensures UpsertableIds(WithSongIds(fetched))
  {
    var tagged := WithSongIds(fetched);
    forall i, j | 0 <= i < j < |tagged| ensures tagged[i].id != tagged[j].id {
      assert IdsIn(tagged)[i] != IdsIn(tagged)[j];
    }
  }

  /**
   * `POST`, as written: every fetched song is tagged with its id and the
   * whole list goes to `saveSongs` without deduplication. A save error
   * (including a fetch that repeats a song) answers 500.
   */
  method Post(store: DataStorage, feed: Option<seq<TrackItem>>, now: int, fault: Option<Step>)
    returns (resp: Response)
    requires store.Valid()
    modifies store
    ensures store.Valid()
    ensures !store.configured ==> resp == Response(500, Failure(NotConfiguredError, None))
    ensures store.configured && FetchSongs.FetchSongs(feed) == [] ==> resp == Response(400, Failure(NoSongsError, None))
    ensures resp.status == 200 <==> store.configured && FetchSongs.FetchSongs(feed) != []
                                    && SaveSucceeds(WithSongIds(FetchSongs.FetchSongs(feed)), fault, old(store.artists).Keys)
    ensures resp.status == 200 ==> resp.body == Updated(true, |FetchSongs.FetchSongs(feed)|, now)
                                   && Saveable(WithSongIds(FetchSongs.FetchSongs(feed)), store.artists)
                                   && store.songs == Upserted(old(store.songs), WithSongIds(FetchSongs.FetchSongs(feed)), store.artists, now)
    ensures resp.status != 200 ==> store.songs == old(store.songs)
    ensures resp.status !in {200, 400} ==> resp.status == 500 && resp.body.Failure?
    ensures store.configured && FetchSongs.FetchSongs(feed) != [] && resp.status == 500 ==> resp.body == Failure(UpdateFailedError, Some(SaveFailed))
  {
    if !store.configured {
      return Response(500, Failure(NotConfiguredError, None));
    }
    var fetched := FetchSongs.FetchSongs(feed);
    if |fetched| == 0 {
      return Response(400, Failure(NoSongsError, None));
    }
    var songsWithIds := WithSongIds(fetched);
    var saved := store.SaveSongs(songsWithIds, now, fault);
    if saved.Err? {
      return Response(500, Failure(UpdateFailedError, Some(saved.message)));
    }
    return Response(200, Updated(true, |songsWithIds|, now));
  }

  /**
   * `POST` with the tagged songs deduplicated by id before the save, as
   * `updateSongs` does: with no database fault a non-empty fetch is saved,
   * one row per song, and the answer counts the songs saved.
   */
  method PostDeduplicated(store: DataStorage, feed: Option<seq<TrackItem>>, now: int, fault: Option<Step>)
    returns (resp: Response)
    requires store.Valid()
    modifies store
    ensures store.Valid()
    ensures !store.configured ==> resp == Response(500, Failure(NotConfiguredError, None))
    ensures store.configured && FetchSongs.FetchSongs(feed) == [] ==> resp == Response(400, Failure(NoSongsError, None))
    ensures store.configured && FetchSongs.FetchSongs(feed) != [] && fault.None? ==> resp.status == 200
    ensures resp.status == 200 ==>
              var unique := KeepLatest(WithSongIds(FetchSongs.FetchSongs(feed)));
              resp.body == Updated(true, |unique|, now)
              && Saveable(unique, store.artists)
              && store.songs == Upserted(old(store.songs), unique, store.artists, now)
    ensures resp.status != 200 ==> store.songs == old(store.songs)
  {
    if !store.configured {
      return Response(500, Failure(NotConfiguredError, None));
    }
    var fetched := FetchSongs.FetchSongs(feed);
    if |fetched| == 0 {
      return Response(400, Failure(NoSongsError, None));
    }
    var unique := Deduplicate(WithSongIds(fetched));
    KeptIdsUpsertable(WithSongIds(fetched));
    var saved := store.SaveSongs(unique, now, fault);
    if saved.Err? {
      return Response(500, Failure(UpdateFailedError, Some(saved.message)));
    }
    return Response(200, Updated(true, |unique|, now));
  }
}
