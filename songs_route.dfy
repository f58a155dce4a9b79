/**
 * `GET /api/songs`: fetch the recent songs, answer with them, and in the
 * background make sure every song has its own file and the list file holds
 * every song once (by song id).
 */
module SongsRoute {
  import opened Wrappers
  import opened FetchSongs
  import opened SongId
  import opened FlatFiles

  /** `getSongID`: the id derived from artist and title, ignoring any stored `ID`. */
  function SongKey(song: RecentSong): string {
    GetSongId(song.artist, song.title)
  }

  /**
   * The content of a new per-song file, `{ID: songID, ...song}`: the spread
   * comes last, so a song that already carries an `ID` keeps it.
   */
  function FileContent(song: RecentSong): (r: RecentSong)
    ensures r.artist == song.artist && r.title == song.title && r.date == song.date && r.url == song.url
    ensures r.id == (if song.id.Some? then song.id else Some(SongKey(song)))
  {
    song.(id := if song.id.Some? then song.id else Some(SongKey(song)))
  }

  /** A song as appended to the list: `{...song, ID: getSongID(song)}`, the computed id winning. */
  function WithId(song: RecentSong): (r: RecentSong)
    ensures r.artist == song.artist && r.title == song.title && r.date == song.date && r.url == song.url
    ensures r.id == Some(SongKey(song))
  {
    song.(id := Some(SongKey(song)))
  }

  /** Tagging a song with its id does not change its id. */
  lemma WithIdKeepsKey()
    ensures forall s :: SongKey(WithId(s)) == SongKey(s)
  { }

  /** Fetching the same songs twice leaves the list as the first merge wrote it. */
  lemma ReplayAddsNothing(existing: seq<RecentSong>, batch: seq<RecentSong>)
    ensures MergeList(MergeList(existing, batch, SongKey, WithId), batch, SongKey, WithId)
         == MergeList(existing, batch, SongKey, WithId)
  {
    WithIdKeepsKey();
    MergeListIdempotent(existing, batch, SongKey, WithId);
  }

  /** The directory `data/songs`: the list file and the per-song files by id. */
  class SongsDirectory {
    var listFile: ListFile
    var songFiles: map<string, RecentSong>

    constructor(listFile: ListFile, songFiles: map<string, RecentSong>)
      ensures this.listFile == listFile && this.songFiles == songFiles
    {
      this.listFile := listFile;
      this.songFiles := songFiles;
    }

    /** `ensureSongFiles`: write `<id>.json` for every song whose file is absent. */
    method EnsureSongFiles(songs: seq<RecentSong>)
      modifies this
      ensures songFiles == FilesAfter(old(songFiles), songs, SongKey, FileContent)
      ensures listFile == old(listFile)
    {
      var i := 0;
      while i < |songs|
        invariant 0 <= i <= |songs|
        invariant songFiles == FilesAfter(old(songFiles), songs[..i], SongKey, FileContent)
        invariant listFile == old(listFile)
      {
        assert songs[..i + 1][..i] == songs[..i];
        var songId := SongKey(songs[i]);
        if songId !in songFiles {
          songFiles := songFiles[songId := FileContent(songs[i])];
        }
        i := i + 1;
      }
      assert songs[..|songs|] == songs;
    }

    /**
     * `ensureSongList`: rewrite the list as the stored songs followed by the
     * songs with an unseen id. An unparseable list file makes it throw
     * before writing anything.
     */
    method EnsureSongList(songs: seq<RecentSong>) returns (ok: bool)
      modifies this
      ensures ok <==> old(listFile) != Malformed
      ensures ok ==> listFile == Tracks(MergeList(ReadList(old(listFile)).value, songs, SongKey, WithId))
      ensures !ok ==> listFile == old(listFile)
      ensures songFiles == old(songFiles)
    {
      var existing := ReadList(listFile);
      if existing.Err? {
        return false;
      }
      listFile := Tracks(MergeList(existing.value, songs, SongKey, WithId));
      return true;
    }

    /** `saveSongsToFileSystem`: the files first, then the list. */
    method SaveSongsToFileSystem(songs: seq<RecentSong>) returns (ok: bool)
      modifies this
      ensures songFiles == FilesAfter(old(songFiles), songs, SongKey, FileContent)
      ensures ok <==> old(listFile) != Malformed
      ensures ok ==> listFile == Tracks(MergeList(ReadList(old(listFile)).value, songs, SongKey, WithId))
      ensures !ok ==> listFile == old(listFile)
    {
      EnsureSongFiles(songs);
      ok := EnsureSongList(songs);
    }

    /**
     * `GET`: the response body is the fetched list, whatever the save does;
     * the save's failure is only logged.
     */
    method Get(feed: Option<seq<TrackItem>>) returns (body: seq<RecentSong>)
      modifies this
      ensures body == FetchSongs.FetchSongs(feed)
      ensures songFiles == FilesAfter(old(songFiles), body, SongKey, FileContent)
      ensures old(listFile) == Malformed ==> listFile == Malformed
      ensures old(listFile) != Malformed ==> listFile == Tracks(MergeList(ReadList(old(listFile)).value, body, SongKey, WithId))
    {
      body := FetchSongs.FetchSongs(feed);
      var saved := SaveSongsToFileSystem(body);
    }
  }
}
