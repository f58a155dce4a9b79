/**
 * `FileSystemStorage` in `GlobalState/Songs`: the same files as the songs
 * route, but keyed on each song's own `ID` field, with a song count returned
 * by `saveSongs`.
 */
module FileSystemStore {
  import opened Wrappers
  import opened FetchSongs
  import opened FlatFiles

  /** The file name `${song.ID}.json` without its extension: a missing id prints as "undefined". */
  function IdFileName(song: RecentSong): (name: string)
    ensures song.id.Some? ==> name == song.id.value
    ensures song.id.None? ==> name == "undefined"
  {
    match song.id
    case Some(id) => id
    case None => "undefined"
  }

  /** The key the list is deduplicated on: the `ID` field itself, so all id-less songs share one key. */
  function IdField(song: RecentSong): Option<string> {
    song.id
  }

  /** Songs are stored as they are, without any added field. */
  function AsIs(song: RecentSong): RecentSong {
    song
  }

  /** The file store over `data/songs`. */
  class FileSystemStorage {
    var listFile: ListFile
    var songFiles: map<string, RecentSong>

    constructor(listFile: ListFile, songFiles: map<string, RecentSong>)
      ensures this.listFile == listFile && this.songFiles == songFiles
    {
      this.listFile := listFile;
      this.songFiles := songFiles;
    }

    /**
     * `saveSongs`: write the missing per-song files, then rewrite the list;
     * the result is the size of the batch, or the error of an unparseable
     * list file (the per-song files are then already written).
     */
    method SaveSongs(songs: seq<RecentSong>) returns (r: Result<nat>)
      modifies this
      ensures songFiles == FilesAfter(old(songFiles), songs, IdFileName, AsIs)
      ensures r.Ok? <==> old(listFile) != Malformed
      ensures r.Ok? ==> r.value == |songs|
      ensures r.Ok? ==> listFile == Tracks(MergeList(ReadList(old(listFile)).value, songs, IdField, AsIs))
      ensures r.Err? ==> listFile == old(listFile)
    {
      EnsureSongFiles(songs);
      var listed := EnsureSongList(songs);
      if listed.Err? {
        return Err(listed.message);
      }
      return Ok(|songs|);
    }

    /** `loadSongs`: the whole stored list, whatever `limit` asks for. */
    method LoadSongs(limit: int) returns (r: Result<seq<RecentSong>>)
      ensures r.Err? <==> listFile == Malformed
      ensures listFile.Tracks? ==> r == Ok(listFile.tracks)
      ensures listFile == Absent ==> r == Ok([])
    {
      r := ReadList(listFile);
    }

    /** `loadCurrentSong`: the first stored song (the earliest appended), or null for an empty list. */
    method LoadCurrentSong() returns (r: Result<Option<RecentSong>>)
      ensures r.Err? <==> listFile == Malformed
      ensures listFile.Tracks? && listFile.tracks != [] ==> r == Ok(Some(listFile.tracks[0]))
      ensures listFile == Absent || listFile == Tracks([]) ==> r == Ok(None)
    {
      var songs := LoadSongs(1);
      if songs.Err? {
        return Err(songs.message);
      }
      return Ok(if |songs.value| > 0 then Some(songs.value[0]) else None);
    }

    /** `ensureSongFiles`: write `<ID>.json` for every song whose file is absent. */
    method EnsureSongFiles(songs: seq<RecentSong>)
      modifies this
      ensures songFiles == FilesAfter(old(songFiles), songs, IdFileName, AsIs)
      ensures listFile == old(listFile)
    {
      var i := 0;
      while i < |songs|
        invariant 0 <= i <= |songs|
        invariant songFiles == FilesAfter(old(songFiles), songs[..i], IdFileName, AsIs)
        invariant listFile == old(listFile)
      {
        assert songs[..i + 1][..i] == songs[..i];
        var fileName := IdFileName(songs[i]);
        if fileName !in songFiles {
          songFiles := songFiles[fileName := songs[i]];
        }
        i := i + 1;
      }
      assert songs[..|songs|] == songs;
    }

    /** `ensureSongList`: the stored list followed by the songs whose `ID` is not stored yet. */
    method EnsureSongList(songs: seq<RecentSong>) returns (r: Result<()>)
      modifies this
      ensures r.Ok? <==> old(listFile) != Malformed
      ensures r.Ok? ==> listFile == Tracks(MergeList(ReadList(old(listFile)).value, songs, IdField, AsIs))
      ensures r.Err? ==> listFile == old(listFile)
      ensures songFiles == old(songFiles)
    {
      var existing := LoadSongs(10);
      if existing.Err? {
        return Err(existing.message);
      }
      listFile := Tracks(MergeList(existing.value, songs, IdField, AsIs));
      return Ok(());
    }
  }

  /** Saving the same batch twice leaves the list as the first save wrote it. */
  lemma ReplayAddsNothing(existing: seq<RecentSong>, batch: seq<RecentSong>)
    ensures MergeList(MergeList(existing, batch, IdField, AsIs), batch, IdField, AsIs)
         == MergeList(existing, batch, IdField, AsIs)
  {
    MergeListIdempotent(existing, batch, IdField, AsIs);
  }

  /** Two id-less songs in one batch over a list without id-less songs are both appended. */
  lemma IdlessSongsAllAppended(existing: seq<RecentSong>, a: RecentSong, b: RecentSong)
    requires a.id.None? && b.id.None?
    requires forall i | 0 <= i < |existing| :: existing[i].id.Some?
    ensures MergeList(existing, [a, b], IdField, AsIs) == existing + [a, b]
  {
    MergeFreshBatch(existing, [a, b], IdField, AsIs);
    assert Tagged([a, b], AsIs) == [a, b];
  }
}
